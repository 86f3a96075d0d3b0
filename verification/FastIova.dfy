/** The IOVA allocator of the fast SMMU path: two bitmaps, so that the TLB is flushed only when fresh addresses run
    out. */
module FastIova {
  import opened Arith

  type Bits = seq<bool>

  /** n bits from `at` on are clear. */
  predicate Clear(b: Bits, at: nat, n: nat) { at + n <= |b| && forall i :: at <= i < at + n ==> !b[i] }

  /** ... and `at` is aligned. */
  predicate Fits(b: Bits, at: nat, n: nat, align: nat) { align > 0 && at % align == 0 && Clear(b, at, n) }

  ghost predicate NoneFrom(b: Bits, from: nat, n: nat, align: nat) {
    forall p: nat :: from <= p ==> !Fits(b, p, n, align)
  }

  predicate Within(b: Bits, c: Bits) { |b| == |c| && forall i :: 0 <= i < |b| && b[i] ==> c[i] }

  function Put(b: Bits, at: nat, n: nat, v: bool): (c: Bits)
    requires at + n <= |b|
    ensures |c| == |b| && forall i :: 0 <= i < |b| ==> c[i] == if at <= i < at + n then v else b[i]
  {
    seq(|b|, i requires 0 <= i < |b| => if at <= i < at + n then v else b[i])
  }

  /** find_next_zero_bit and find_next_bit up to `end` */
  method FindNext(b: Bits, from: nat, end: nat, v: bool) returns (i: nat)
    requires end <= |b|
    ensures from < end ==> from <= i <= end && (i < end ==> b[i] == v) && forall j :: from <= j < i ==> b[j] != v
    ensures from >= end ==> i == end
  {
    if from >= end { return end; }
    i := from;
    while i < end && b[i] != v
      invariant from <= i <= end && forall j :: from <= j < i ==> b[j] != v
    {
      i := i + 1;
    }
  }

  /** __ALIGN_MASK */
  function AlignUp(x: nat, align: nat): (y: nat)
    requires align > 0
    ensures y >= x && y % align == 0 && forall z: nat :: x <= z && z % align == 0 ==> y <= z
  {
    AlignedUp(x, align);
    (x + align - 1) / align * align
  }

  lemma AlignedUp(x: nat, align: nat)
    requires align > 0
    ensures var y := (x + align - 1) / align * align;
      y >= x && y % align == 0 && forall z: nat :: x <= z && z % align == 0 ==> y <= z
  {
    var q := (x + align - 1) / align;
    DivTimes(x + align - 1, align);
    DivUnique(q * align, align, q);
    forall z: nat | x <= z && z % align == 0 ensures q * align <= z {
      DivTimes(z, align);
      var r := z / align;
      if r < q { MulMonotone(r + 1, q, align); Distribute(r, 1, align); }
    }
  }

  /** bitmap_find_next_zero_area: the first aligned area of n clear bits from `start` on, or a number past the end. */
  method FindArea(b: Bits, start: nat, n: nat, align: nat) returns (bit: nat)
    requires n > 0 && align > 0
    ensures bit <= |b| ==> start <= bit && Fits(b, bit, n, align) && forall p: nat :: start <= p < bit ==>
      !Fits(b, p, n, align)
    ensures bit > |b| ==> NoneFrom(b, start, n, align)
  {
    var from := start;
    while true
      invariant start <= from && forall p: nat :: start <= p < from ==> !Fits(b, p, n, align)
      decreases |b| - from
    {
      var zero := FindNext(b, from, |b|, false);
      var index := AlignUp(zero, align);
      BeforeIndex(b, from, zero, index, n, align);
      if index + n > |b| {
        PastEnd(b, index, n, align);
        return index + n;
      }
      var i := FindNext(b, index, index + n, true);
      if i == index + n { return index; }
      AcrossSet(b, index, i, n, align);
      from := i + 1;
    }
  }

  lemma BeforeIndex(b: Bits, from: nat, zero: nat, index: nat, n: nat, align: nat)
    requires n > 0 && align > 0 && (forall z: nat :: zero <= z && z % align == 0 ==> index <= z)
    requires (from < |b| ==> from <= zero <= |b| && forall j :: from <= j < zero ==> b[j]) &&
      (from >= |b| ==> zero == |b|)
    ensures forall p: nat :: from <= p < index ==> !Fits(b, p, n, align)
  {
    forall p: nat | from <= p < index ensures !Fits(b, p, n, align) {
      assert p < zero && p < |b| ==> b[p];
    }
  }

  lemma PastEnd(b: Bits, index: nat, n: nat, align: nat)
    requires index + n > |b|
    ensures NoneFrom(b, index, n, align)
  {
  }

  lemma AcrossSet(b: Bits, index: nat, i: nat, n: nat, align: nat)
    requires index <= i < index + n <= |b| && b[i]
    ensures forall p: nat :: index <= p <= i ==> !Fits(b, p, n, align)
  {
    forall p: nat | index <= p <= i ensures !Fits(b, p, n, align) { assert b[i] && p <= i < p + n; }
  }

  /** 1 << get_order(n pages): the alignment of an allocation. */
  function Alignment(n: nat): (a: nat)
    ensures a > 0 && a >= n
  {
    AlignmentFrom(1, n)
  }

  function AlignmentFrom(a: nat, n: nat): (r: nat)
    requires a > 0
    ensures r >= a && r >= n
    decreases if a >= n then 0 else n - a
  {
    if a >= n then a else AlignmentFrom(2 * a, n)
  }

  /** The allocator. */
  datatype Iova = Iova(live: Bits, clean: Bits, next: nat, stale: bool)

  predicate IovaOk(s: Iova) {
    && Within(s.live, s.clean) && |s.live| > 0 && s.next < |s.live|
    && (!s.stale ==> s.clean == s.live)
  }

  /** s' is s with n pages taken at `bit`, after a flush of the TLB if `flushed`. */
  predicate Taken(s: Iova, s': Iova, bit: nat, n: nat, flushed: bool) {
    && bit + n <= |s.live| == |s.clean| && n > 0
    && (flushed ==> s.stale)
    && var clean := if flushed then s.live else s.clean;
       && Fits(clean, bit, n, Alignment(n))
       && s'.live == Put(s.live, bit, n, true) && s'.clean == Put(clean, bit, n, true)
       && s'.stale == (s.stale && !flushed)
       && s'.next == if bit + n >= |s.live| then 0 else bit + n
  }

  /** Nothing was taken, for want of an area in the live bitmap. */
  predicate Refused(s: Iova, s': Iova, n: nat, flushed: bool) {
    && (flushed ==> s.stale)
    && s' == if flushed then s.(clean := s.live, stale := false) else s
  }

  datatype Result = Failed | Got(bit: nat)

  class Mapping {
    var live: Bits
    var clean: Bits
    var next: nat
    var stale: bool

    ghost function View(): Iova reads this { Iova(live, clean, next, stale) }

    /** __fast_smmu_create_mapping_sized */
    constructor (pages: nat)
      requires pages > 0
      ensures IovaOk(View()) && |live| == pages && forall i :: 0 <= i < pages ==> !live[i]
    {
      live, clean := seq(pages, _ => false), seq(pages, _ => false);
      next, stale := 0, false;
    }

    /** bitmap_set or bitmap_clear on one of the bitmaps. */
    static method Mark(b: Bits, at: nat, n: nat, v: bool) returns (c: Bits)
      requires at + n <= |b|
      ensures c == Put(b, at, n, v)
    {
      c := b;
      var i := at;
      while i < at + n
        invariant at <= i <= at + n && c == Put(b, at, i - at, v)
      {
        c := c[i := v];
        i := i + 1;
      }
    }

    /** __fast_smmu_alloc_iova, in pages. */
    method Alloc(n: nat) returns (r: Result, flushed: bool)
      requires IovaOk(View()) && n > 0
      modifies this
      ensures IovaOk(View())
      ensures r.Got? ==> Taken(old(View()), View(), r.bit, n, flushed) && Clear(old(live), r.bit, n)
      ensures r.Failed? ==> Refused(old(View()), View(), n, flushed)
      ensures r.Failed? <==> NoneFrom(old(live), 0, n, Alignment(n))
    {
      var align := Alignment(n);
      flushed := false;
      var bit := FindArea(clean, next, n, align);
      if bit > |clean| {
        bit := FindArea(clean, 0, n, align);
        if bit > |clean| {
          if !stale { return Failed, false; }
          flushed, clean, stale := true, live, false;
          bit := FindArea(clean, 0, n, align);
          if bit > |clean| { return Failed, true; }
        }
      }
      LessClear(live, clean, bit, n, align);
      live := Mark(live, bit, n, true);
      clean := Mark(clean, bit, n, true);
      next := bit + n;
      if next >= |live| { next := 0; }
      r := Got(bit);
    }

    /** __fast_smmu_free_iova, in pages. */
    method Free(bit: nat, n: nat)
      requires IovaOk(View()) && bit + n <= |live|
      modifies this`live, this`stale
      ensures IovaOk(View()) && live == Put(old(live), bit, n, false) && stale
    {
      live := Mark(live, bit, n, false);
      stale := true;
    }

    /** Both bitmaps of a reserved range. */
    method Reserve(bit: nat, n: nat)
      requires IovaOk(View()) && bit + n <= |live|
      modifies this`live, this`clean
      ensures IovaOk(View()) && live == Put(old(live), bit, n, true) && clean == Put(old(clean), bit, n, true)
    {
      live := Mark(live, bit, n, true);
      clean := Mark(clean, bit, n, true);
    }
  }

  /** What is clear in the bigger bitmap is clear in the smaller. */
  lemma LessClear(live: Bits, clean: Bits, bit: nat, n: nat, align: nat)
    requires Within(live, clean) && Fits(clean, bit, n, align)
    ensures Fits(live, bit, n, align)
  {
  }
}
