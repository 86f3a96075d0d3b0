/** A laid out and mapped scatterlist turned into DMA segments, in place. */
module SgSegments {
  import opened Arith
  import opened SgList

  function Addrs(a: nat, n: nat): seq<nat> { seq(n, i requires 0 <= i < n => a + i) }

  /** The addresses of the bytes of the first n entries, in order. */
  function InAddrs(l: Limits, sg: seq<Entry>, base: nat, n: nat): seq<nat>
    requires l.Ok() && n <= |sg|
  {
    if n == 0 then []
    else InAddrs(l, sg, base, n - 1) + Addrs(base + l.Start(sg, n - 1) + l.Off(sg[n - 1]), sg[n - 1].length)
  }

  /** The addresses the first n DMA segments cover, in order. */
  function OutAddrs(es: seq<Entry>, n: nat): seq<nat>
    requires n <= |es|
  {
    if n == 0 then [] else OutAddrs(es, n - 1) + Addrs(es[n - 1].dma, es[n - 1].dmaLen)
  }

  lemma {:induction false} OutSame(es: seq<Entry>, fs: seq<Entry>, n: nat)
    requires n <= |es| && n <= |fs| && forall k :: 0 <= k < n ==> es[k].dma == fs[k].dma && es[k].dmaLen == fs[k].dmaLen
    ensures OutAddrs(es, n) == OutAddrs(fs, n)
    decreases n
  {
    if n > 0 { OutSame(es, fs, n - 1); }
  }

  lemma AddrsJoin(a: nat, m: nat, n: nat)
    ensures Addrs(a, m) + Addrs(a + m, n) == Addrs(a, m + n)
  {
  }

  /** Where entry i begins, or all ends. */
  function Place(l: Limits, sg: seq<Entry>, i: nat): nat
    requires l.Ok() && i <= |sg|
  {
    if i < |sg| then l.Start(sg, i) else l.Total(sg, i)
  }

  lemma RoomStep(l: Limits, sg: seq<Entry>, i: nat)
    requires l.Ok() && i < |sg|
    ensures Place(l, sg, i + 1) == Place(l, sg, i) + l.Room(sg, i, |sg|)
    ensures l.Need(sg[i]) <= l.Room(sg, i, |sg|) && sg[i].length + l.Off(sg[i]) <= l.Room(sg, i, |sg|)
  {
  }

  lemma {:induction false} PlaceBound(l: Limits, sg: seq<Entry>, i: nat, j: nat)
    requires l.Ok() && i <= j <= |sg|
    ensures Place(l, sg, i) <= Place(l, sg, j)
    decreases j - i
  {
    if i < j {
      RoomStep(l, sg, i);
      PlaceBound(l, sg, i + 1, j);
    }
  }

  lemma FirstPlace(l: Limits, sg: seq<Entry>)
    requires l.Ok()
    ensures Place(l, sg, 0) == 0
  {
    if sg != [] { FirstNoPad(l, sg); }
  }

  // ---------------------------------------------------------------------------------------------
  // The loop of finalise on values.

  /** What the loop carries: the address of the next entry, and length (0 if it is closed) and end of the last
      segment. */
  datatype Carry = Carry(addr: nat, len: nat, end: nat)

  predicate Joins(l: Limits, e: Entry, c: Carry, max: nat) requires l.seg > 0 {
    c.len > 0 && e.dma == 0 && !AtBoundary(c.addr, l.seg) && max - c.len >= e.dmaLen
  }

  /** Where the bytes of the entry go. */
  function Goes(l: Limits, e: Entry, c: Carry, max: nat): nat requires l.seg > 0 {
    if Joins(l, e, c, max) then c.end else c.addr + e.dma
  }

  function Next(l: Limits, e: Entry, c: Carry, max: nat): Carry requires l.seg > 0 {
    var len := if Joins(l, e, c, max) then c.len + e.dmaLen else e.dmaLen;
    Carry(c.addr + e.length, if (e.dmaLen + e.dma) % INTS < e.length then 0 else len, Goes(l, e, c, max) + e.dmaLen)
  }

  /** What is carried into turn i. */
  function At(l: Limits, sg: seq<Entry>, base: nat, max: nat, i: nat): Carry
    requires l.Ok() && i <= |sg|
  {
    if i == 0 then Carry(base, 0, 0) else Next(l, l.Laid(sg, i - 1, |sg|), At(l, sg, base, max, i - 1), max)
  }

  function Where(l: Limits, sg: seq<Entry>, base: nat, max: nat, i: nat): nat
    requires l.Ok() && i < |sg|
  {
    Goes(l, l.Laid(sg, i, |sg|), At(l, sg, base, max, i), max)
  }

  /** The addresses of the bytes of the first n entries as the loop gives them out. */
  function RunAddrs(l: Limits, sg: seq<Entry>, base: nat, max: nat, n: nat): seq<nat>
    requires l.Ok() && n <= |sg|
  {
    if n == 0 then [] else RunAddrs(l, sg, base, max, n - 1) + Addrs(Where(l, sg, base, max, n - 1), sg[n - 1].length)
  }

  /** Entry i goes where its bytes are mapped. */
  ghost predicate Right(l: Limits, sg: seq<Entry>, base: nat, max: nat, i: nat)
    requires l.Ok() && i < |sg|
  {
    Where(l, sg, base, max, i) == base + Place(l, sg, i) + l.Off(sg[i])
  }

  lemma AppendEq(a: seq<nat>, b: seq<nat>, c: seq<nat>, d: seq<nat>)
    requires |a| == |b|
    ensures a + c == b + d <==> a == b && c == d
  {
    if a + c == b + d {
      assert a == (a + c)[..|a|] && b == (b + d)[..|b|];
      assert c == (a + c)[|a|..] && d == (b + d)[|b|..];
    }
  }

  lemma AddrsEq(a: nat, b: nat, n: nat)
    ensures Addrs(a, n) == Addrs(b, n) <==> n == 0 || a == b
  {
    if n > 0 { assert Addrs(a, n)[0] == a && Addrs(b, n)[0] == b; }
  }

  /** The addresses are right exactly if every entry with bytes goes where it is mapped. */
  lemma {:induction false} RunIff(l: Limits, sg: seq<Entry>, base: nat, max: nat, n: nat)
    requires l.Ok() && n <= |sg|
    ensures |RunAddrs(l, sg, base, max, n)| == |InAddrs(l, sg, base, n)|
    ensures RunAddrs(l, sg, base, max, n) == InAddrs(l, sg, base, n) <==>
      forall i :: 0 <= i < n && sg[i].length > 0 ==> Right(l, sg, base, max, i)
    decreases n
  {
    hide Where;
    if n > 0 {
      var a, b := Where(l, sg, base, max, n - 1), base + l.Start(sg, n - 1) + l.Off(sg[n - 1]);
      RunIff(l, sg, base, max, n - 1);
      AppendEq(RunAddrs(l, sg, base, max, n - 1), InAddrs(l, sg, base, n - 1), Addrs(a, sg[n - 1].length), Addrs(b,
          sg[n - 1].length));
      AddrsEq(a, b, sg[n - 1].length);
    }
  }

  // ---------------------------------------------------------------------------------------------
  // When the addresses are right.

  /** Lengths and rooms are unsigned ints: an entry with more room leads the loop astray. */
  predicate Astray(l: Limits, sg: seq<Entry>, k: nat)
    requires l.Ok() && k < |sg|
  {
    l.Room(sg, k, |sg|) >= INTS
  }

  ghost predicate NoneAstray(l: Limits, sg: seq<Entry>, n: nat)
    requires l.Ok() && n <= |sg|
  {
    forall k :: 0 <= k < n ==> !Astray(l, sg, k)
  }

  ghost predicate EmptyIn(sg: seq<Entry>, i: nat, j: nat) { forall m :: i <= m < j && m < |sg| ==> sg[m].length == 0 }

  /** One turn that knows where it is. */
  lemma NextOnTrack(l: Limits, e: Entry, c: Carry, max: nat)
    requires l.seg > 0 && (c.len > 0 ==> c.end == c.addr)
    ensures Goes(l, e, c, max) == c.addr + e.dma
    ensures var d := Next(l, e, c, max);
      e.dmaLen + e.dma <= e.length < INTS ==> d.addr == c.addr + e.length && (d.len > 0 ==> d.end == d.addr)
  {
    hide AtBoundary;
    if e.dmaLen + e.dma < INTS { SmallMod(e.dmaLen + e.dma); }
  }

  lemma SmallMod(r: nat)
    requires r < INTS
    ensures r % INTS == r
  {
  }

  /** Until an entry leads it astray, the loop knows where it is. */
  lemma {:induction false} OnTrack(l: Limits, sg: seq<Entry>, base: nat, max: nat, i: nat)
    requires l.Ok() && i <= |sg| && NoneAstray(l, sg, i)
    ensures var c := At(l, sg, base, max, i); c.addr == base + Place(l, sg, i) && (c.len > 0 ==> c.end == c.addr)
    ensures i < |sg| ==> Right(l, sg, base, max, i)
    decreases i
  {
    hide Limits.Need, Limits.Off, Limits.Start, Limits.Total, Limits.Room, Place, Joins, Goes, Next;
    if i == 0 {
      FirstPlace(l, sg);
    } else {
      OnTrack(l, sg, base, max, i - 1);
      RoomStep(l, sg, i - 1);
      assert !Astray(l, sg, i - 1);
      SmallMod(l.Room(sg, i - 1, |sg|));
      NextOnTrack(l, l.Laid(sg, i - 1, |sg|), At(l, sg, base, max, i - 1), max);
    }
    if i < |sg| { NextOnTrack(l, l.Laid(sg, i, |sg|), At(l, sg, base, max, i), max); }
  }

  /** Its address never runs ahead. */
  lemma {:induction false} Behind(l: Limits, sg: seq<Entry>, base: nat, max: nat, i: nat)
    requires l.Ok() && i <= |sg|
    ensures At(l, sg, base, max, i).addr <= base + Place(l, sg, i)
    ensures forall k :: 0 <= k < i && Astray(l, sg, k) ==> At(l, sg, base, max, i).addr < base + Place(l, sg, i)
    decreases i
  {
    hide Limits.Need, Limits.Off, Limits.Start, Limits.Total, Limits.Room, Place, Joins, Goes;
    if i == 0 {
      FirstPlace(l, sg);
    } else {
      Behind(l, sg, base, max, i - 1);
      RoomStep(l, sg, i - 1);
      ModLess(l.Room(sg, i - 1, |sg|));
    }
  }

  lemma ModLess(r: nat)
    ensures r % INTS <= r && (r >= INTS ==> r % INTS < r)
  {
  }

  /** Past empty entries, an open segment still ends where the last bytes ended. */
  lemma {:induction false} StillOpen(l: Limits, sg: seq<Entry>, base: nat, max: nat, p: nat, i: nat)
    requires l.Ok() && p < i <= |sg| && EmptyIn(sg, p + 1, i)
    ensures At(l, sg, base, max, i).len > 0 ==> At(l, sg, base, max, i).end == Where(l, sg, base, max, p) + sg[p].length
    decreases i
  {
    hide Limits.Need, Limits.Off, Limits.Start, Limits.Total, Limits.Room, Limits.Ok;
    if i > p + 1 { StillOpen(l, sg, base, max, p, i - 1); }
  }

  /** Astray, an entry with bytes is right only by joining the last bytes where they end. */
  lemma OnlyByJoining(l: Limits, sg: seq<Entry>, base: nat, max: nat, k: nat, p: nat, i: nat)
    requires l.Ok() && k <= p < i < |sg| && Astray(l, sg, k) && EmptyIn(sg, p + 1, i)
    requires Right(l, sg, base, max, p) && Right(l, sg, base, max, i)
    ensures Joins(l, l.Laid(sg, i, |sg|), At(l, sg, base, max, i), max) && l.Off(sg[i]) == 0
    ensures Place(l, sg, i) == Place(l, sg, p) + l.Off(sg[p]) + sg[p].length
  {
    hide Limits.Need, Limits.Off, Limits.Start, Limits.Total, Limits.Room, Limits.Ok, Place, At, AtBoundary;
    Behind(l, sg, base, max, i);
    StillOpen(l, sg, base, max, p, i);
  }

  /** The entries behind one that leads astray have no bytes. */
  ghost predicate Fits(l: Limits, sg: seq<Entry>)
    requires l.Ok()
  {
    forall k :: 0 <= k < |sg| && Astray(l, sg, k) ==> EmptyIn(sg, k + 1, |sg|)
  }

  /** The bytes of entry k fill its room, and those of j, the only ones behind it, are few enough to be appended to
      them. */
  ghost predicate Appended(l: Limits, sg: seq<Entry>, base: nat, max: nat, k: nat, j: nat)
    requires l.Ok()
  {
    && k < j < |sg| && NoneAstray(l, sg, k) && Astray(l, sg, k)
    && l.Off(sg[k]) + sg[k].length == l.Room(sg, k, |sg|) && (forall m :: k < m < j ==> l.Room(sg, m, |sg|) == 0)
    && sg[j].length > 0 && l.Off(sg[j]) == 0 && sg[k].length + sg[j].length <= max
    && !AtBoundary(base + Place(l, sg, k) + l.Room(sg, k, |sg|) % INTS, l.seg)
  }

  ghost predicate Saved(l: Limits, sg: seq<Entry>, base: nat, max: nat, k: nat, j: nat)
    requires l.Ok()
  {
    Appended(l, sg, base, max, k, j) && EmptyIn(sg, j + 1, |sg|)
  }

  ghost predicate LengthsOk(sg: seq<Entry>, max: nat) {
    max < INTS && forall k :: 0 <= k < |sg| ==> sg[k].length <= max
  }

  /** The entry that leads astray cannot begin its room and fill it. */
  lemma FullRoom(l: Limits, sg: seq<Entry>, max: nat, k: nat)
    requires l.Ok() && LengthsOk(sg, max) && k < |sg| && Astray(l, sg, k)
    requires l.Off(sg[k]) + sg[k].length == l.Room(sg, k, |sg|)
    ensures l.Off(sg[k]) > 0 && sg[k].length > 0
  {
  }

  lemma AfterFull(l: Limits, sg: seq<Entry>, base: nat, max: nat, k: nat)
    requires l.Ok() && LengthsOk(sg, max) && k < |sg| && NoneAstray(l, sg, k) && Astray(l, sg, k)
    requires l.Off(sg[k]) + sg[k].length == l.Room(sg, k, |sg|)
    ensures At(l, sg, base, max, k + 1) ==
      Carry(base + Place(l, sg, k) + l.Room(sg, k, |sg|) % INTS, sg[k].length, base + Place(l, sg, k + 1))
  {
    hide Limits.Need, Limits.Off, Limits.Start, Limits.Total, Limits.Room, Place, NoneAstray, Astray;
    OnTrack(l, sg, base, max, k);
    RoomStep(l, sg, k);
    FullRoom(l, sg, max, k);
  }

  /** Entries without room change nothing. */
  lemma PastOne(l: Limits, sg: seq<Entry>, i: nat, c: Carry, max: nat)
    requires l.Ok() && i < |sg| && l.Room(sg, i, |sg|) == 0
    ensures var d := Next(l, l.Laid(sg, i, |sg|), c, max);
      d.addr == c.addr && (c.len > 0 && c.len <= max && !AtBoundary(c.addr, l.seg) ==> d == c)
  {
    RoomStep(l, sg, i);
    hide Limits.Need, Limits.Off, Limits.Start, Limits.Total, Limits.Room, Place, AtBoundary;
  }

  lemma {:induction false} Past(l: Limits, sg: seq<Entry>, base: nat, max: nat, i: nat, j: nat)
    requires l.Ok() && i <= j <= |sg| && forall m :: i <= m < j ==> l.Room(sg, m, |sg|) == 0
    ensures Place(l, sg, j) == Place(l, sg, i) && At(l, sg, base, max, j).addr == At(l, sg, base, max, i).addr
    ensures var c := At(l, sg, base, max, i);
      c.len > 0 && c.len <= max && !AtBoundary(c.addr, l.seg) ==> At(l, sg, base, max, j) == c
    decreases j - i
  {
    hide Limits.Need, Limits.Off, Limits.Start, Limits.Total, Limits.Room, Limits.Laid, Place, AtBoundary, Next;
    if i < j {
      RoomStep(l, sg, i);
      PastOne(l, sg, i, At(l, sg, base, max, i), max);
      Past(l, sg, base, max, i + 1, j);
    }
  }

  /** Appended, the bytes are right. */
  lemma AppendedRight(l: Limits, sg: seq<Entry>, base: nat, max: nat, k: nat, j: nat)
    requires l.Ok() && LengthsOk(sg, max) && Appended(l, sg, base, max, k, j)
    ensures Right(l, sg, base, max, j)
  {
    hide Limits.Need, Limits.Off, Limits.Start, Limits.Total, Limits.Room, Place, NoneAstray, Astray, AtBoundary, At;
    AfterFull(l, sg, base, max, k);
    FullRoom(l, sg, max, k);
    Past(l, sg, base, max, k + 1, j);
  }

  /** Where nothing is between, no entry has room. */
  lemma {:induction false} NoRoom(l: Limits, sg: seq<Entry>, i: nat, j: nat)
    requires l.Ok() && i <= j <= |sg| && Place(l, sg, i) == Place(l, sg, j)
    ensures forall m :: i <= m < j ==> l.Room(sg, m, |sg|) == 0
    decreases j - i
  {
    if i < j {
      RoomStep(l, sg, i);
      PlaceBound(l, sg, i + 1, j);
      hide Limits.Room, Place;
      NoRoom(l, sg, i + 1, j);
    }
  }

  /** Past empty entries, an open segment that began with p is as long as p. */
  lemma {:induction false} StillAsLong(l: Limits, sg: seq<Entry>, base: nat, max: nat, p: nat, i: nat)
    requires l.Ok() && p < i <= |sg| && EmptyIn(sg, p + 1, i) && l.Off(sg[p]) > 0
    ensures At(l, sg, base, max, i).len > 0 ==> At(l, sg, base, max, i).len == sg[p].length
    decreases i
  {
    hide Limits.Need, Limits.Off, Limits.Start, Limits.Total, Limits.Room, Limits.Ok;
    if i > p + 1 { StillAsLong(l, sg, base, max, p, i - 1); }
  }

  /** The first bytes behind an entry that leads astray are right only if they are appended. */
  lemma RightAppended(l: Limits, sg: seq<Entry>, base: nat, max: nat, k: nat, j: nat)
    requires l.Ok() && LengthsOk(sg, max) && k < j < |sg| && NoneAstray(l, sg, k) && Astray(l, sg, k)
    requires EmptyIn(sg, k + 1, j) && sg[j].length > 0 && Right(l, sg, base, max, j)
    ensures Appended(l, sg, base, max, k, j)
  {
    hide Limits.Need, Limits.Off, Limits.Start, Limits.Total, Limits.Room, Place, NoneAstray, Astray, AtBoundary, At,
         Limits.Ok, Right;
    OnTrack(l, sg, base, max, k);
    OnlyByJoining(l, sg, base, max, k, k, j);
    RoomStep(l, sg, k);
    PlaceBound(l, sg, k + 1, j);
    NoRoom(l, sg, k + 1, j);
    FullRoom(l, sg, max, k);
    AfterFull(l, sg, base, max, k);
    Past(l, sg, base, max, k + 1, j);
    StillAsLong(l, sg, base, max, k, j);
  }

  /** They are fewer than a granule. */
  lemma Few(l: Limits, sg: seq<Entry>, base: nat, max: nat, k: nat, j: nat)
    requires l.Ok() && LengthsOk(sg, max) && Appended(l, sg, base, max, k, j)
    ensures l.Off(sg[j]) + sg[j].length < l.g == l.Need(sg[j]) <= l.Room(sg, j, |sg|)
  {
    hide Limits.Start, Limits.Total, Limits.Room, Place, NoneAstray, AtBoundary;
    RoomStep(l, sg, j);
    NeedOfOff(sg[j].length, l.g);
  }

  /** And nothing can be appended to them. */
  lemma NothingMore(l: Limits, sg: seq<Entry>, base: nat, max: nat, k: nat, j: nat, i: nat)
    requires l.Ok() && LengthsOk(sg, max) && Appended(l, sg, base, max, k, j)
    requires j < i < |sg| && EmptyIn(sg, j + 1, i) && sg[i].length > 0
    ensures !Right(l, sg, base, max, i)
  {
    hide Limits.Need, Limits.Off, Limits.Start, Limits.Total, Limits.Room, Place, NoneAstray, Astray, AtBoundary, Right;
    if Right(l, sg, base, max, i) {
      AppendedRight(l, sg, base, max, k, j);
      OnlyByJoining(l, sg, base, max, k, j, i);
      RoomStep(l, sg, j);
      PlaceBound(l, sg, j + 1, i);
      Few(l, sg, base, max, k, j);
      assert false;
    }
  }

  function FirstAstray(l: Limits, sg: seq<Entry>, i: nat): (k: nat)
    requires l.Ok() && i <= |sg|
    ensures i <= k <= |sg| && (k < |sg| ==> Astray(l, sg, k)) && forall m :: i <= m < k ==> !Astray(l, sg, m)
    decreases |sg| - i
  {
    if i == |sg| || Astray(l, sg, i) then i else FirstAstray(l, sg, i + 1)
  }

  function FirstBytes(sg: seq<Entry>, i: nat): (j: nat)
    requires i <= |sg|
    ensures i <= j <= |sg| && (j < |sg| ==> sg[j].length > 0) && EmptyIn(sg, i, j)
    decreases |sg| - i
  {
    if i == |sg| || sg[i].length > 0 then i else FirstBytes(sg, i + 1)
  }

  /** There is only one entry that can be saved. */
  lemma SavedOnce(l: Limits, sg: seq<Entry>, base: nat, max: nat, k: nat, j: nat, p: nat, q: nat)
    requires l.Ok() && k < j < |sg| && NoneAstray(l, sg, k) && Astray(l, sg, k) && EmptyIn(sg, k + 1, j)
    requires sg[j].length > 0
    requires Saved(l, sg, base, max, p, q)
    ensures p == k && q == j
  {
    hide Limits.Need, Limits.Off, Limits.Start, Limits.Total, Limits.Room, Place, Astray, AtBoundary;
    if j < q { RoomStep(l, sg, j); }
  }

  /** Whether every entry is right, once the loop went astray at k with bytes behind it, the first at j. */
  lemma AstrayIff(l: Limits, sg: seq<Entry>, base: nat, max: nat, k: nat, j: nat)
    requires l.Ok() && LengthsOk(sg, max) && k < j < |sg| && NoneAstray(l, sg, k) && Astray(l, sg, k)
    requires EmptyIn(sg, k + 1, j) && sg[j].length > 0
    ensures (forall i :: 0 <= i < |sg| && sg[i].length > 0 ==> Right(l, sg, base, max, i)) <==>
      Saved(l, sg, base, max, k, j)
  {
    hide Limits.Need, Limits.Off, Limits.Start, Limits.Total, Limits.Room, Place, Astray, AtBoundary, Right, Limits.Ok,
         Appended;
    var i := FirstBytes(sg, j + 1);
    if Right(l, sg, base, max, j) {
      RightAppended(l, sg, base, max, k, j);
      if i < |sg| { NothingMore(l, sg, base, max, k, j, i); }
    }
    if Saved(l, sg, base, max, k, j) {
      AppendedRight(l, sg, base, max, k, j);
      forall m | 0 <= m < |sg| && sg[m].length > 0 ensures Right(l, sg, base, max, m) {
        if m <= k { OnTrack(l, sg, base, max, m); }
      }
    }
  }

  /**
   * The addresses are right exactly if all bytes come before entries whose room is 2^32 or more,
   * but for bytes that happen to be appended to those before them.
   */
  lemma AddrsIff(l: Limits, sg: seq<Entry>, base: nat, max: nat)
    requires l.Ok() && LengthsOk(sg, max)
    ensures RunAddrs(l, sg, base, max, |sg|) == InAddrs(l, sg, base, |sg|) <==>
      Fits(l, sg) || exists k, j :: Saved(l, sg, base, max, k, j)
  {
    hide Limits.Need, Limits.Off, Limits.Start, Limits.Total, Limits.Room, Place, Astray, AtBoundary, Right, Limits.Ok,
         Saved, RunAddrs, InAddrs;
    RunIff(l, sg, base, max, |sg|);
    var k := FirstAstray(l, sg, 0);
    forall i | 0 <= i <= k && i < |sg| ensures Right(l, sg, base, max, i) { OnTrack(l, sg, base, max, i); }
    if k < |sg| {
      var j := FirstBytes(sg, k + 1);
      if j < |sg| {
        AstrayIff(l, sg, base, max, k, j);
        forall p: nat, q: nat | Saved(l, sg, base, max, p, q) ensures p == k && q == j {
          SavedOnce(l, sg, base, max, k, j, p, q);
        }
        assert !EmptyIn(sg, k + 1, |sg|);
      }
    }
  }

  /** Such an input: padding gives the first entry a room of 2^32, and the second goes where the first is. */
  lemma AstrayExample(base: nat)
    ensures var l, e := Limits(4096, INTS), Entry(0, 0xC000_0000, 0, 0);
      l.Ok() && l.Room([e, e], 0, 2) == INTS && Where(l, [e, e], base, INTS - 1, 1) == base && !Fits(l, [e, e])
  {
    var l, e := Limits(4096, INTS), Entry(0, 0xC000_0000, 0, 0);
    var sg := [e, e];
    assert l.Need(e) == 0xC000_0000 && l.Off(e) == 0;
    assert l.Total(sg, 1) == 0xC000_0000;
    assert l.Room(sg, 0, 2) == INTS;
    hide Limits.Need, Limits.Off, Limits.Total, Limits.Start, Limits.Room;
    assert l.Laid(sg, 0, 2) == Entry(0, 0, 0, 0xC000_0000);
    assert At(l, sg, base, INTS - 1, 1) == Next(l, l.Laid(sg, 0, 2), Carry(base, 0, 0), INTS - 1);
    assert Astray(l, sg, 0) && sg[1].length > 0;
  }

  /** And one that is saved. */
  lemma SavedExample()
    ensures var l := Limits(4096, 2 * INTS);
      var sg := [Entry(0, 4096, 0, 0), Entry(4095, INTS - 4095, 0, 0), Entry(0, 100, 0, 0)];
      l.Ok() && !Fits(l, sg) && Saved(l, sg, 0, INTS - 1, 1, 2)
  {
    var l := Limits(4096, 2 * INTS);
    var sg := [Entry(0, 4096, 0, 0), Entry(4095, INTS - 4095, 0, 0), Entry(0, 100, 0, 0)];
    assert l.Total(sg, 1) == 4096;
    assert l.Start(sg, 1) == 4096 && l.Need(sg[1]) == INTS && l.Total(sg, 2) == INTS + 4096;
    assert l.Pad(l.Total(sg, 2), sg[2]) == 0;
    assert l.Room(sg, 0, 3) == 4096 && l.Room(sg, 1, 3) == INTS;
    assert Astray(l, sg, 1) && sg[2].length > 0 && !Astray(l, sg, 0);
  }

  // ---------------------------------------------------------------------------------------------
  // Boundaries.

  lemma AddSmall(a: nat, n: nat, seg: nat)
    requires seg > 0 && a % seg + n < seg
    ensures (a + n) % seg == a % seg + n
  {
    DivTimes(a, seg);
    DivUnique(a + n, seg, a / seg);
  }

  lemma EndsAtBoundary(a: nat, n: nat, seg: nat)
    requires seg > 0 && a % seg + n == seg
    ensures (a + n) % seg == 0
  {
    DivTimes(a, seg);
    Distribute(a / seg, 1, seg);
    DivUnique(a + n, seg, a / seg + 1);
  }

  lemma BaseShift(base: nat, a: nat, seg: nat)
    requires seg > 0 && base % seg == 0
    ensures (base + a) % seg == a % seg
  {
    DivTimes(base, seg);
    DivTimes(a, seg);
    Distribute(base / seg, a / seg, seg);
    DivUnique(base + a, seg, base / seg + a / seg);
  }

  /** The base begins a boundary or everything lies on one side of it, and no entry is longer than the boundary. */
  ghost predicate Within(l: Limits, sg: seq<Entry>, base: nat)
    requires l.Ok()
  {
    && (base % l.seg == 0 || base % l.seg + l.Total(sg, |sg|) <= l.seg)
    && forall k :: 0 <= k < |sg| ==> l.Need(sg[k]) <= l.seg
  }

  lemma NeedInside(l: Limits, sg: seq<Entry>, base: nat, i: nat)
    requires l.Ok() && i < |sg| && Within(l, sg, base)
    ensures Inside(base + l.Start(sg, i), l.Need(sg[i]), l.seg)
  {
    EntryInside(l, sg, i);
    RoomStep(l, sg, i);
    PlaceBound(l, sg, i + 1, |sg|);
    hide Limits.Need, Limits.Start, Limits.Total, Limits.Room;
    if base % l.seg == 0 {
      BaseShift(base, l.Start(sg, i), l.seg);
    } else if l.Need(sg[i]) > 0 {
      AddSmall(base, l.Start(sg, i), l.seg);
    }
  }

  /** An entry's bytes lie on one side of every boundary. */
  lemma BytesInside(l: Limits, sg: seq<Entry>, base: nat, i: nat)
    requires l.Ok() && i < |sg| && Within(l, sg, base)
    ensures Inside(base + l.Start(sg, i) + l.Off(sg[i]), sg[i].length, l.seg)
  {
    NeedInside(l, sg, base, i);
    hide Limits.Need, Limits.Start, Limits.Total;
    if sg[i].length > 0 { AddSmall(base + l.Start(sg, i), l.Off(sg[i]), l.seg); }
  }

  /** Appending an entry that begins where a segment ends, off a boundary. */
  lemma JoinInside(a: nat, m: nat, n: nat, seg: nat)
    requires seg > 0 && m > 0 && Inside(a, m, seg) && Inside(a + m, n, seg) && !AtBoundary(a + m, seg)
    ensures Inside(a, m + n, seg)
  {
    if a % seg + m < seg { AddSmall(a, m, seg); } else { EndsAtBoundary(a, m, seg); }
  }

  ghost predicate AllInside(es: seq<Entry>, count: nat, seg: nat) {
    seg > 0 && count <= |es| && forall k :: 0 <= k < count ==> Inside(es[k].dma, es[k].dmaLen, seg)
  }

  // ---------------------------------------------------------------------------------------------
  // In place.

  /** Offsets and lengths are back up to i, and there are `count` segments, none too long. */
  ghost predicate Restored(l: Limits, sg: seq<Entry>, es: seq<Entry>, i: nat, count: nat, max: nat) {
    && l.Ok() && |es| == |sg| && count <= i <= |sg|
    && (forall k :: 0 <= k < i ==> es[k].offset == sg[k].offset && es[k].length == sg[k].length)
    && (forall k :: 0 <= k < count ==> es[k].dmaLen <= max)
    && (forall k :: count <= k < i ==> es[k].dma == ERROR && es[k].dmaLen == 0)
    && (forall k :: i <= k < |sg| ==> es[k] == l.Laid(sg, k, |sg|))
  }

  /** The open segment, if there is one, is the last. */
  ghost predicate Open(es: seq<Entry>, count: nat, c: Carry) {
    c.len > 0 ==> 0 < count <= |es| && es[count - 1].dmaLen == c.len && es[count - 1].dma + c.len == c.end
  }

  /** One turn of the loop on the list: entry i restored, and its bytes added to the last segment or to a new one. */
  function FinishOne(l: Limits, es: seq<Entry>, i: nat, count: nat, c: Carry, max: nat): seq<Entry>
    requires l.seg > 0 && i < |es| && count <= i && Open(es, count, c)
  {
    var e := es[i];
    var fs := es[i := Entry(e.offset + e.dma, e.dmaLen, ERROR, 0)];
    if Joins(l, e, c, max) then fs[count - 1 := fs[count - 1].(dmaLen := c.len + e.dmaLen)]
    else fs[count := fs[count].(dma := c.addr + e.dma, dmaLen := e.dmaLen)]
  }

  /** The number of segments after the turn. */
  function More(l: Limits, e: Entry, count: nat, c: Carry, max: nat): nat requires l.seg > 0 {
    if Joins(l, e, c, max) then count else count + 1
  }

  lemma TurnRestored(l: Limits, sg: seq<Entry>, es: seq<Entry>, i: nat, count: nat, c: Carry, max: nat)
    requires Restored(l, sg, es, i, count, max) && LengthsOk(sg, max) && i < |sg| && c.len <= max && Open(es, count, c)
    ensures Restored(l, sg, FinishOne(l, es, i, count, c, max), i + 1, More(l, es[i], count, c, max), max)
  {
    hide Limits.Need, Limits.Start, Limits.Room, Limits.Total, Limits.Off, AtBoundary;
  }

  /** The turn adds the addresses of one entry, where the loop puts them. */
  lemma TurnAddrs(l: Limits, es: seq<Entry>, i: nat, count: nat, c: Carry, max: nat)
    requires l.seg > 0 && i < |es| && count <= i && Open(es, count, c)
    ensures var fs := FinishOne(l, es, i, count, c, max); var n := More(l, es[i], count, c, max);
      && n <= |fs| && OutAddrs(fs, n) == OutAddrs(es, count) + Addrs(Goes(l, es[i], c, max), es[i].dmaLen)
      && Open(fs, n, Next(l, es[i], c, max))
  {
    hide AtBoundary, Addrs;
    var fs := FinishOne(l, es, i, count, c, max);
    if Joins(l, es[i], c, max) {
      OutSame(es, fs, count - 1);
      AddrsJoin(es[count - 1].dma, c.len, es[i].dmaLen);
    } else {
      OutSame(es, fs, count);
    }
  }

  /** With bytes in it, the entry is before any that leads astray. */
  lemma FitsOnTrack(l: Limits, sg: seq<Entry>, base: nat, max: nat, i: nat)
    requires l.Ok() && i < |sg| && Fits(l, sg) && sg[i].length > 0
    ensures var c := At(l, sg, base, max, i); c.addr == base + l.Start(sg, i) && (c.len > 0 ==> c.end == c.addr)
  {
    hide Limits.Need, Limits.Start, Limits.Room, Limits.Total, Limits.Off, AtBoundary, Astray, At, Right;
    OnTrack(l, sg, base, max, i);
  }

  lemma TurnInside(l: Limits, sg: seq<Entry>, es: seq<Entry>, base: nat, i: nat, count: nat, c: Carry, max: nat)
    requires l.Ok() && |es| == |sg| && count <= i < |sg| && Fits(l, sg) && Within(l, sg, base)
    requires es[i] == l.Laid(sg, i, |sg|) && c == At(l, sg, base, max, i)
    requires Open(es, count, c) && AllInside(es, count, l.seg)
    ensures AllInside(FinishOne(l, es, i, count, c, max), More(l, es[i], count, c, max), l.seg)
  {
    hide Limits.Need, Limits.Start, Limits.Room, Limits.Total, Limits.Off, AtBoundary, Astray, At, Inside, Within, Fits;
    NoBytes(0, l.seg);
    NoBytes(c.addr + es[i].dma, l.seg);
    if sg[i].length > 0 {
      FitsOnTrack(l, sg, base, max, i);
      BytesInside(l, sg, base, i);
      if Joins(l, es[i], c, max) { JoinInside(es[count - 1].dma, c.len, sg[i].length, l.seg); }
    }
  }

  lemma NoBytes(a: nat, seg: nat)
    requires seg > 0
    ensures Inside(a, 0, seg)
  {
  }

  /** Entries below i are done, and what the loop carries fits them. */
  ghost predicate Midway(l: Limits, sg: seq<Entry>, es: seq<Entry>, base: nat, max: nat, i: nat, count: nat, c: Carry) {
    && LengthsOk(sg, max) && Restored(l, sg, es, i, count, max) && c == At(l, sg, base, max, i)
    && c.len <= max && Open(es, count, c) && OutAddrs(es, count) == RunAddrs(l, sg, base, max, i)
    && (Fits(l, sg) && Within(l, sg, base) ==> AllInside(es, count, l.seg))
  }

  lemma TurnOk(l: Limits, sg: seq<Entry>, es: seq<Entry>, base: nat, max: nat, i: nat, count: nat, c: Carry)
    requires Midway(l, sg, es, base, max, i, count, c) && i < |sg|
    ensures l.seg > 0 && |es| == |sg| && count <= i && Open(es, count, c) && c.len <= max
    ensures Midway(l, sg, FinishOne(l, es, i, count, c, max), base, max, i + 1, More(l, es[i], count, c, max),
      Next(l, es[i], c, max))
  {
    hide Limits.Need, Limits.Start, Limits.Room, Limits.Total, Limits.Off, AtBoundary, Astray, Fits, Within, AllInside,
         FinishOne, Goes, Open;
    TurnRestored(l, sg, es, i, count, c, max);
    TurnAddrs(l, es, i, count, c, max);
    NextSmall(l, es[i], c, max);
    if Fits(l, sg) && Within(l, sg, base) { TurnInside(l, sg, es, base, i, count, c, max); }
  }

  lemma NextSmall(l: Limits, e: Entry, c: Carry, max: nat)
    requires l.seg > 0 && e.dmaLen <= max
    ensures Next(l, e, c, max).len <= max
  {
    hide AtBoundary;
  }

  /** The writes of one turn of the loop of finalise. */
  method WriteTurn(a: array<Entry>, l: Limits, i: nat, count: nat, c: Carry, max: nat) returns (n: nat)
    requires l.seg > 0 && i < a.Length && count <= i && Open(a[..], count, c)
    modifies a
    ensures a[..] == FinishOne(l, old(a[..]), i, count, c, max) && n == More(l, old(a[i]), count, c, max)
  {
    hide AtBoundary;
    var e := a[i];
    a[i] := Entry(e.offset + e.dma, e.dmaLen, ERROR, 0);
    if Joins(l, e, c, max) {
      n := count;
      a[n - 1] := a[n - 1].(dmaLen := c.len + e.dmaLen);
    } else {
      n := count + 1;
      a[n - 1] := a[n - 1].(dma := c.addr + e.dma, dmaLen := e.dmaLen);
    }
  }

  /** qcom_iommu_dma_finalise_sg */
  method Finalise(a: array<Entry>, l: Limits, max: nat, base: nat, ghost sg: seq<Entry>) returns (count: nat)
    requires |sg| == a.Length && l.Ok() && LengthsOk(sg, max) && AllLaid(l, sg, a[..])
    modifies a
    ensures count <= a.Length && Restored(l, sg, a[..], a.Length, count, max)
    ensures OutAddrs(a[..], count) == InAddrs(l, sg, base, a.Length) <==>
      Fits(l, sg) || exists k, j :: Saved(l, sg, base, max, k, j)
    ensures Fits(l, sg) && Within(l, sg, base) ==> AllInside(a[..], count, l.seg)
  {
    hide Restored, OutAddrs, InAddrs, RunAddrs, Open, FinishOne, Midway, AllLaid, AtBoundary, Fits, Saved, Within, At,
         AllInside, LengthsOk;
    var i, c := 0, Carry(base, 0, 0);
    count := 0;
    AtStart(l, sg, a[..], base, max);
    while i < a.Length
      invariant 0 <= i <= a.Length && Midway(l, sg, a[..], base, max, i, count, c)
    {
      TurnOk(l, sg, a[..], base, max, i, count, c);
      var e := a[i];
      count := WriteTurn(a, l, i, count, c, max);
      c := Next(l, e, c, max);
      i := i + 1;
    }
    AtEnd(l, sg, a[..], base, max, count, c);
    AddrsIff(l, sg, base, max);
  }

  lemma AtStart(l: Limits, sg: seq<Entry>, es: seq<Entry>, base: nat, max: nat)
    requires l.Ok() && LengthsOk(sg, max) && AllLaid(l, sg, es)
    ensures Midway(l, sg, es, base, max, 0, 0, Carry(base, 0, 0))
  {
  }

  lemma AtEnd(l: Limits, sg: seq<Entry>, es: seq<Entry>, base: nat, max: nat, count: nat, c: Carry)
    requires Midway(l, sg, es, base, max, |sg|, count, c)
    ensures |es| == |sg| && count <= |sg| && Restored(l, sg, es, |sg|, count, max)
    ensures OutAddrs(es, count) == RunAddrs(l, sg, base, max, |sg|)
    ensures Fits(l, sg) && Within(l, sg, base) ==> AllInside(es, count, l.seg)
  {
  }
}
