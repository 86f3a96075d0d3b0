/** Reserving addresses in the fast SMMU path: PCI windows and regions the IOMMU driver asks for. */
module FastReserve {
  import opened FastIova

  /** FAST_PAGE_SIZE, and the numbers an unsigned long can hold. */
  const PAGE: nat := 4096
  const LONGS: nat := 0x1_0000_0000_0000_0000

  function Down(x: nat): nat { x / PAGE * PAGE }
  function RoundUp(x: nat): nat { (x + PAGE - 1) / PAGE * PAGE }
  function Max(a: nat, b: nat): nat { if a >= b then a else b }
  function Least(a: nat, b: nat): nat { if a <= b then a else b }

  /** Does page i of the aperture hold an address from `first` to `last`, both included? */
  predicate Touches(base: nat, i: nat, first: nat, last: nat) {
    base + i * PAGE <= last && first < base + i * PAGE + PAGE
  }

  datatype Bounds = Bounds(start: nat, n: nat)

  /** The bits fast_smmu_reserve_pci_windows sets for a window: `last` is its last address. */
  function WindowBits(base: nat, pages: nat, first: nat, last: nat): (b: Bounds)
    requires base % PAGE == 0
    ensures b.start + b.n <= pages
  {
    var start := Max(base, Down(first));
    var end := Least(base + pages * PAGE, RoundUp(last));
    if start >= end then Bounds(0, 0)
    else Bounds((start - base) / PAGE, (end - base) / PAGE - (start - base) / PAGE)
  }

  /** A window reserves the pages it touches, but not one that begins with its last address. */
  lemma WindowPages(base: nat, pages: nat, first: nat, last: nat, i: nat)
    requires base % PAGE == 0 && i < pages && first <= last
    ensures var b := WindowBits(base, pages, first, last);
      b.start <= i < b.start + b.n <==> Touches(base, i, first, last) && base + i * PAGE != last
  {
  }

  /** Every page a window touches is reserved, exactly if no page of the aperture begins with the window's last
      address. */
  lemma WindowComplete(base: nat, pages: nat, first: nat, last: nat)
    requires base % PAGE == 0 && first <= last
    ensures (forall i :: 0 <= i < pages && Touches(base, i, first, last) ==>
      InBounds(WindowBits(base, pages, first, last), i))
      <==> !(last % PAGE == 0 && base <= last < base + pages * PAGE)
  {
    hide WindowBits;
    var b := WindowBits(base, pages, first, last);
    forall i: nat | i < pages ensures InBounds(b, i) <==> Touches(base, i, first, last) && base + i * PAGE != last {
      WindowPages(base, pages, first, last, i);
    }
    if last % PAGE == 0 && base <= last < base + pages * PAGE {
      var i := (last - base) / PAGE;
      assert i < pages && base + i * PAGE == last;
      assert Touches(base, i, first, last) && !InBounds(b, i);
    }
  }

  predicate InBounds(b: Bounds, i: nat) { b.start <= i < b.start + b.n }

  /** Such a window: one byte more than a page. */
  lemma WindowExample()
    ensures Touches(0, 1, 0, 4096) && !InBounds(WindowBits(0, 16, 0, 4096), 1)
  {
  }

  // ---------------------------------------------------------------------------------------------
  // Regions.

  function Wrap(x: int): nat { x % LONGS }

  /** The bits fast_smmu_reserve_iommu_regions sets for a region, in unsigned arithmetic. */
  function RegionBits(base: nat, pages: nat, first: nat, length: nat): Bounds
    requires length > 0 && pages > 0
  {
    var lo := Max(base, first);
    var hi := Least(base + pages * PAGE - 1, first + length - 1);
    var start := Wrap(lo - base) / PAGE;
    Bounds(start, Wrap(Wrap(hi - base) / PAGE - start + 1))
  }

  /** The numbers are those of a real aperture and region. */
  predicate Real(base: nat, pages: nat, first: nat, length: nat) {
    && base % PAGE == 0 && pages > 0 && length > 0
    && base + pages * PAGE <= 0x1_0000_0000 && first + length <= LONGS
  }

  /** The bits lie in the bitmap exactly if the region does not end below the aperture nor begin a page or more above
      it. */
  lemma RegionInside(base: nat, pages: nat, first: nat, length: nat)
    requires Real(base, pages, first, length)
    ensures var b := RegionBits(base, pages, first, length);
      b.start + b.n <= pages <==> base < first + length && first < base + pages * PAGE + PAGE
  {
  }

  lemma RealParts(base: nat, pages: nat, first: nat, length: nat)
    requires Real(base, pages, first, length)
    ensures length > 0 && pages > 0
  {
  }

  /** And then nothing wraps around. */
  lemma RegionPlain(base: nat, pages: nat, first: nat, length: nat)
    requires Real(base, pages, first, length) && base < first + length && first < base + pages * PAGE + PAGE
    ensures var lo, hi := Max(base, first), Least(base + pages * PAGE - 1, first + length - 1);
      RegionBits(base, pages, first, length) == Bounds((lo - base) / PAGE, (hi - base) / PAGE - (lo - base) / PAGE + 1)
  {
    hide Wrap;
    var lo, hi := Max(base, first), Least(base + pages * PAGE - 1, first + length - 1);
    WrapSmall(lo - base);
    WrapSmall(hi - base);
    assert (hi - base) / PAGE - (lo - base) / PAGE + 1 >= 0;
    WrapSmall((hi - base) / PAGE - (lo - base) / PAGE + 1);
  }

  lemma WrapSmall(x: int)
    requires 0 <= x < LONGS
    ensures Wrap(x) == x
  {
  }

  /** The bits are those of the pages the region touches. */
  lemma RegionPages(base: nat, pages: nat, first: nat, length: nat, i: nat)
    requires Real(base, pages, first, length) && base < first + length && first < base + pages * PAGE + PAGE
    requires i < pages
    ensures InBounds(RegionBits(base, pages, first, length), i) <==> Touches(base, i, first, first + length - 1)
  {
    RegionPlain(base, pages, first, length);
    hide RegionBits;
  }

  /** A region that ends below the aperture: far more bits than there are. */
  lemma RegionExample()
    ensures var b := RegionBits(0x1000_0000, 16, 0, 4096); b.start + b.n > 16
  {
  }

  // ---------------------------------------------------------------------------------------------

  method ReserveWindow(m: Mapping, base: nat, first: nat, last: nat)
    requires IovaOk(m.View()) && base % PAGE == 0 && first <= last
    modifies m`live, m`clean
    ensures IovaOk(m.View()) && |m.live| == old(|m.live|)
    ensures forall i :: 0 <= i < |m.live| ==>
      && m.live[i] == (old(m.live)[i] || (Touches(base, i, first, last) && base + i * PAGE != last))
      && m.clean[i] == (old(m.clean)[i] || (Touches(base, i, first, last) && base + i * PAGE != last))
  {
    hide WindowBits, Touches;
    var b := WindowBits(base, |m.live|, first, last);
    forall i: nat | i < |m.live| ensures InBounds(b, i) <==> Touches(base, i, first, last) && base + i * PAGE != last {
      WindowPages(base, |m.live|, first, last, i);
    }
    m.Reserve(b.start, b.n);
  }

  method ReserveRegion(m: Mapping, base: nat, first: nat, length: nat)
    requires IovaOk(m.View()) && Real(base, |m.live|, first, length)
    requires base < first + length && first < base + |m.live| * PAGE + PAGE
    modifies m`live, m`clean
    ensures IovaOk(m.View()) && |m.live| == old(|m.live|)
    ensures forall i :: 0 <= i < |m.live| ==>
      && m.live[i] == (old(m.live)[i] || Touches(base, i, first, first + length - 1))
      && m.clean[i] == (old(m.clean)[i] || Touches(base, i, first, first + length - 1))
  {
    hide RegionBits, Touches, Real;
    RealParts(base, |m.live|, first, length);
    var b := RegionBits(base, |m.live|, first, length);
    RegionInside(base, |m.live|, first, length);
    m.Reserve(b.start, b.n);
    forall i: nat | i < |m.live|
      ensures m.live[i] == (old(m.live)[i] || Touches(base, i, first, first + length - 1))
      ensures m.clean[i] == (old(m.clean)[i] || Touches(base, i, first, first + length - 1))
    {
      RegionPages(base, |m.live|, first, length, i);
    }
  }
}
