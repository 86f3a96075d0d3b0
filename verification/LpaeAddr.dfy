/** Physical addresses in table entries: which bits an entry keeps, and what a lookup makes of them. */
module LpaeAddr {
  import opened Arith
  import opened LpaeLevels
  import opened LpaeSize

  /** Bitwise or. */
  function Or(a: nat, b: nat): nat
    decreases a + b
  {
    if a == 0 && b == 0 then 0 else 2 * Or(a / 2, b / 2) + if a % 2 == 1 || b % 2 == 1 then 1 else 0
  }

  lemma {:induction false} OrZero(a: nat)
    ensures Or(a, 0) == a
    decreases a
  {
    if a > 0 { OrZero(a / 2); }
  }

  lemma {:induction false} OrSwap(a: nat, b: nat)
    ensures Or(a, b) == Or(b, a)
    decreases a + b
  {
    if a > 0 || b > 0 { OrSwap(a / 2, b / 2); }
  }

  /** Where no bits meet, or is plus. */
  lemma {:induction false} OrSum(a: nat, b: nat, e: nat)
    requires Divides(e, a) && b < Pow2(e)
    ensures Or(a, b) == a + b
    decreases e
  {
    if e == 0 {
      OrZero(a);
    } else {
      DividesHalf(e, a);
      OrSum(a / 2, b / 2, e - 1);
    }
  }

  /** Bits that are there already change nothing. */
  lemma {:induction false} OrPart(a: nat, e: nat)
    ensures Or(a, a % Pow2(e)) == a
    decreases e
  {
    if e == 0 {
      OrZero(a);
    } else {
      HalfMod(a, Pow2(e - 1));
      OrPart(a / 2, e - 1);
    }
  }

  /** The low bits of an or. */
  lemma {:induction false} OrLow(a: nat, b: nat, e: nat)
    ensures Or(a, b) % Pow2(e) == Or(a % Pow2(e), b % Pow2(e))
    decreases e
  {
    if e > 0 {
      HalfMod(a, Pow2(e - 1));
      HalfMod(b, Pow2(e - 1));
      HalfMod(Or(a, b), Pow2(e - 1));
      OrLow(a / 2, b / 2, e - 1);
    }
  }

  /** Bits that a word of 64 bits has no room for are bits that are masked out. */
  lemma OrWide(a: nat)
    ensures Or(a, a % 0x1000_0000 * 0x10_0000_0000) % 0x10_0000_0000_0000
      == Or(a, a * 0x10_0000_0000) % 0x10_0000_0000_0000
  {
    hide *;
    Powers();
    OrLow(a, a % 0x1000_0000 * 0x10_0000_0000, 52);
    OrLow(a, a * 0x10_0000_0000, 52);
    TopGone(a);
  }

  lemma TopGone(a: nat)
    ensures a % 0x1000_0000 * 0x10_0000_0000 % 0x10_0000_0000_0000 == a * 0x10_0000_0000 % 0x10_0000_0000_0000
  {
    var q, r := a / 0x1000_0000, a % 0x1000_0000;
    assert a * 0x10_0000_0000 == q * 0x1000 * 0x10_0000_0000_0000 + r * 0x10_0000_0000;
  }

  lemma HalfMod(a: nat, p: nat)
    requires p > 0
    ensures a % (2 * p) / 2 == a / 2 % p && a % (2 * p) % 2 == a % 2
  {
    var q, r := a / 2 / p, a / 2 % p;
    DivTimes(a / 2, p);
    assert a == 2 * (q * p + r) + a % 2;
    assert 2 * (q * p) == q * (2 * p);
    DivUnique(a, 2 * p, q);
  }

  // ---------------------------------------------------------------------------------------------
  // Entries.

  /** paddr_to_iopte: bits 47-12, with bits 51-48 in 15-12. */
  function Encoded(a: nat): nat { Or(a, a / 0x10_0000_0000) % 0x1_0000_0000_0000 / 0x1000 * 0x1000 }

  /** iopte_to_paddr: with a granule of 64K the packed bits go back to the top. */
  function Decoded(page: nat, e: nat): nat {
    if page < 0x1_0000 then e else Or(e, e * 0x10_0000_0000) % 0x10_0000_0000_0000 / 0x1_0000 * 0x1_0000
  }

  /** What a leaf for address a says it is for. */
  function Stored(page: nat, a: nat): nat { Decoded(page, Encoded(a)) }

  /** First address out of reach, and the alignment every address needs. */
  function Reach(page: nat): nat { if page < 0x1_0000 then 0x1_0000_0000_0000 else 0x10_0000_0000_0000 }
  function Fine(page: nat): nat { if page < 0x1_0000 then 0x1000 else 0x1_0000 }

  /** What iova_to_phys finds d bytes into a run of blocks that was mapped to pa: the leaf's address, or'ed with the
      offset. */
  function Shown(page: nat, step: nat, pa: nat, d: nat): nat
    requires step > 0
  {
    Or(Stored(page, pa + d / step * step), d % step)
  }

  lemma {:induction false} PowAdd(a: nat, b: nat)
    ensures Pow2(a + b) == Pow2(a) * Pow2(b)
    decreases b
  {
    if b > 0 { PowAdd(a, b - 1); }
  }

  lemma Powers()
    ensures Pow2(12) == 0x1000 && Pow2(16) == 0x1_0000 && Pow2(48) == 0x1_0000_0000_0000
    ensures Pow2(52) == 0x10_0000_0000_0000
  {
    PowAdd(12, 12);
    PowAdd(24, 24);
    PowAdd(48, 4);
  }

  lemma StoredNarrow(page: nat, a: nat)
    requires page < 0x1_0000
    ensures Stored(page, a) == a <==> a % 0x1000 == 0 && a < 0x1_0000_0000_0000
  {
    hide Or;
    Powers();
    if a % 0x1000 == 0 && a < 0x1_0000_0000_0000 { OrSum(a, a / 0x10_0000_0000, 12); }
  }

  lemma StoredWide(page: nat, a: nat)
    requires page >= 0x1_0000
    ensures Stored(page, a) == a <==> a % 0x1_0000 == 0 && a < 0x10_0000_0000_0000
  {
    hide Encoded, Or;
    if a % 0x1_0000 == 0 && a < 0x10_0000_0000_0000 {
      var hi, mid := a / 0x1_0000_0000_0000, a / 0x1_0000 % 0x1_0000_0000;
      Packed(a, hi, mid);
      Unpacked(hi, mid);
    }
  }

  /** The four bits from 48 on go where an aligned address has none. */
  lemma Packed(a: nat, hi: nat, mid: nat)
    requires a == hi * 0x1_0000_0000_0000 + mid * 0x1_0000 && mid < 0x1_0000_0000 && hi < 16
    ensures Encoded(a) == mid * 0x1_0000 + hi * 0x1000
  {
    hide Or;
    var m1, m0 := mid / 0x10_0000, mid % 0x10_0000;
    DivUnique(a, 0x10_0000_0000, hi * 0x1000 + m1);
    Powers();
    OrSum(a, a / 0x10_0000_0000, 16);
    DivUnique(a + (hi * 0x1000 + m1), 0x1_0000_0000_0000, hi);
    DivUnique(mid * 0x1_0000 + hi * 0x1000 + m1, 0x1000, mid * 16 + hi);
  }

  /** ... and come back. */
  lemma Unpacked(hi: nat, mid: nat)
    requires mid < 0x1_0000_0000 && hi < 16
    ensures Decoded(0x1_0000, mid * 0x1_0000 + hi * 0x1000) == hi * 0x1_0000_0000_0000 + mid * 0x1_0000
  {
    hide Or;
    var e := mid * 0x1_0000 + hi * 0x1000;
    var up := e * 0x10_0000_0000;
    assert up == (mid * 16 + hi) * 0x1_0000_0000_0000;
    DivUnique(up, 0x1_0000_0000_0000, mid * 16 + hi);
    Powers();
    OrSum(up, e, 48);
    OrSwap(e, up);
    DivUnique(up + e, 0x10_0000_0000_0000, mid);
    DivUnique(hi * 0x1_0000_0000_0000 + e, 0x1_0000, hi * 0x1_0000_0000 + mid);
  }

  /** A leaf keeps exactly the addresses that are aligned and within reach. */
  lemma StoredIff(page: nat, a: nat)
    ensures Stored(page, a) == a <==> a % Fine(page) == 0 && a < Reach(page)
    ensures Stored(page, a) < Reach(page)
  {
    hide Stored, Or;
    if page < 0x1_0000 { StoredNarrow(page, a); } else { StoredWide(page, a); }
    StoredBelow(page, a);
  }

  lemma StoredBelow(page: nat, a: nat)
    ensures Stored(page, a) < Reach(page)
  {
    hide Or;
  }

  /** What is read back from a table entry for the page at a: the address goes in as it is, without paddr_to_iopte. */
  function TableAddr(page: nat, a: nat): nat { Decoded(page, a % 0x1_0000_0000_0000 / 0x1000 * 0x1000) }

  /** An entry for an aligned page reads back as that page if and only if it lies below 2^48, even where leaves reach
      2^52. */
  lemma TableAddrIff(g: Geom, a: nat)
    requires g.Real() && a % g.page == 0
    ensures TableAddr(g.page, a) == a <==> a < 0x1_0000_0000_0000
  {
    hide TableAddr;
    if g.page == 0x1_0000 { TableWide(a); } else { TableNarrow(g.page, a); }
  }

  lemma TableNarrow(page: nat, a: nat)
    requires page < 0x1_0000 && a % 0x1000 == 0
    ensures TableAddr(page, a) == a % 0x1_0000_0000_0000
  {
  }

  /** The bits from 48 on are lost: an aligned page has none where leaves have them packed. */
  lemma TableWide(a: nat)
    requires a % 0x1_0000 == 0
    ensures TableAddr(0x1_0000, a) == a % 0x1_0000_0000_0000
  {
    hide Or;
    var e := a % 0x1_0000_0000_0000;
    var q := e / 0x1_0000;
    assert e == q * 0x1_0000;
    assert e * 0x10_0000_0000 == q * 0x10_0000_0000_0000;
    DivUnique(e, 0x1000, q * 16);
    DivUnique(e * 0x10_0000_0000, 0x10_0000_0000_0000, q);
    Powers();
    OrSum(e * 0x10_0000_0000, e, 52);
    OrSwap(e, e * 0x10_0000_0000);
    DivUnique(e * 0x10_0000_0000 + e, 0x10_0000_0000_0000, q);
    DivUnique(e, 0x1_0000, q);
  }

  // ---------------------------------------------------------------------------------------------
  // Blocks.

  function Shift(g: Geom): nat { if g.page == 0x1000 then 12 else if g.page == 0x4000 then 14 else 16 }
  function Bits(g: Geom): nat { Shift(g) - 3 }

  /** Blocks are powers of two. */
  lemma {:induction false} BlockPow(g: Geom, h: nat)
    requires g.Real()
    ensures g.Block(h) == Pow2(Shift(g) + h * Bits(g))
    decreases h
  {
    if h == 0 {
      PagePow(g);
    } else {
      PagePow(g);
      BlockPow(g, h - 1);
      var e := Shift(g) + (h - 1) * Bits(g);
      assert e + Bits(g) == Shift(g) + h * Bits(g);
      PowAdd(e, Bits(g));
    }
  }

  lemma PagePow(g: Geom)
    requires g.Real()
    ensures g.page == Pow2(Shift(g)) && g.n == Pow2(Bits(g))
  {
    PowAdd(12, 2);
    PowAdd(12, 4);
    assert Pow2(9) == 512 && Pow2(11) == 2048;
    PowAdd(9, 4);
  }

  /** Every block of the table divides the reach, and is a multiple of the finest alignment. */
  lemma BlockFits(g: Geom, h: nat)
    requires g.Real() && h <= g.H
    ensures Reach(g.page) % g.Block(h) == 0 && g.Block(h) % Fine(g.page) == 0
  {
    hide Pow2, Geom.Block;
    BlockPow(g, h);
    Powers();
    ExponentFits(g, h);
    PowDivides(Shift(g) + h * Bits(g), if g.page < 0x1_0000 then 48 else 52);
    PowDivides(if g.page < 0x1_0000 then 12 else 16, Shift(g) + h * Bits(g));
  }

  lemma ExponentFits(g: Geom, h: nat)
    requires g.Real() && h <= g.H
    ensures (if g.page < 0x1_0000 then 12 else 16) <= Shift(g) + h * Bits(g) <= if g.page < 0x1_0000 then 48 else 52
  {
    MulMonotone(h, if g.page < 0x1_0000 then 3 else 2, Bits(g));
  }

  lemma PowDivides(a: nat, b: nat)
    requires a <= b
    ensures Pow2(b) % Pow2(a) == 0
  {
    PowAdd(b - a, a);
    DivUnique(Pow2(b), Pow2(a), Pow2(b - a));
  }

  /** The run lies within reach and is aligned to its blocks. */
  predicate Encodable(g: Geom, pa: nat, step: nat, len: nat) requires step > 0 {
    pa % step == 0 && pa + len <= Reach(g.page)
  }

  /** A leaf at an aligned address within reach shows every byte of its block where it is. */
  lemma ShownAt(g: Geom, h: nat, a: nat, off: nat)
    requires g.Real() && h <= g.H && a % g.Block(h) == 0 && a < Reach(g.page) && off < g.Block(h)
    ensures Stored(g.page, a) == a && Or(a, off) == a + off && a + g.Block(h) <= Reach(g.page)
  {
    hide Stored, Or, Pow2, Geom.Block;
    BlockPow(g, h);
    BlockFits(g, h);
    ModOf(a, g.Block(h), Fine(g.page));
    StoredIff(g.page, a);
    OrSum(a, off, Shift(g) + h * Bits(g));
    NextBlock(a, Reach(g.page), g.Block(h));
  }

  lemma ModOf(a: nat, b: nat, f: nat)
    requires b > 0 && f > 0 && a % b == 0 && b % f == 0
    ensures a % f == 0
  {
    DivTimes(a, b);
    DivTimes(b, f);
    Regroup(a / b, b / f, f);
    DivUnique(a, f, a / b * (b / f));
  }

  lemma NextBlock(a: nat, end: nat, b: nat)
    requires b > 0 && a % b == 0 && end % b == 0 && a < end
    ensures a + b <= end
  {
    DivTimes(a, b);
    DivTimes(end, b);
    var q, r := a / b, end / b;
    Distribute(q, 1, b);
    if r <= q { MulMonotone(r, q, b); } else { MulMonotone(q + 1, r, b); }
  }

  /** A run of blocks of height h is shown where it was put if and only if it is aligned to its blocks and within
      reach. */
  lemma ShownIff(g: Geom, h: nat, k: nat, pa: nat)
    requires g.Real() && h <= g.H && k > 0
    ensures (forall d: nat :: d < g.Span(h, k) ==> Shown(g.page, g.Block(h), pa, d) == pa + d)
      <==> Encodable(g, pa, g.Block(h), g.Span(h, k))
  {
    hide Stored, Or, Geom.Span, Geom.Block;
    if Encodable(g, pa, g.Block(h), g.Span(h, k)) {
      forall d: nat | d < g.Span(h, k) ensures Shown(g.page, g.Block(h), pa, d) == pa + d { ShownWell(g, h, k, pa, d); }
    }
    if forall d: nat :: d < g.Span(h, k) ==> Shown(g.page, g.Block(h), pa, d) == pa + d { ShownBack(g, h, k, pa); }
  }

  lemma ShownWell(g: Geom, h: nat, k: nat, pa: nat, d: nat)
    requires g.Real() && h <= g.H && Encodable(g, pa, g.Block(h), g.Span(h, k)) && d < g.Span(h, k)
    ensures Shown(g.page, g.Block(h), pa, d) == pa + d
  {
    hide Stored, Or, Geom.Block;
    var B := g.Block(h);
    DivTimes(d, B);
    DivUnique(d / B * B, B, d / B);
    ModAdd(pa, d / B * B, B);
    ShownAt(g, h, pa + d / B * B, d % B);
  }

  lemma ShownBack(g: Geom, h: nat, k: nat, pa: nat)
    requires g.Real() && h <= g.H && k > 0
    requires forall d: nat :: d < g.Span(h, k) ==> Shown(g.page, g.Block(h), pa, d) == pa + d
    ensures Encodable(g, pa, g.Block(h), g.Span(h, k))
  {
    hide Stored, Or, Geom.Block;
    var B := g.Block(h);
    MulAtLeast(k, B);
    ShownFirst(g, h, pa);
    assert pa % B == 0;
    var last := (k - 1) * B;
    Distribute(k - 1, 1, B);
    DivUnique(last, B, k - 1);
    OrZero(Stored(g.page, pa + last));
    assert Shown(g.page, B, pa, last) == Stored(g.page, pa + last) == pa + last;
    StoredIff(g.page, pa + last);
    ModAdd(pa, last, B);
    BlockFits(g, h);
    NextBlock(pa + last, Reach(g.page), B);
  }

  lemma ShownFirst(g: Geom, h: nat, pa: nat)
    requires g.Real() && forall d: nat :: d < g.Block(h) ==> Shown(g.page, g.Block(h), pa, d) == pa + d
    ensures pa % g.Block(h) == 0
  {
    hide Stored, Or, Geom.Block;
    var B := g.Block(h);
    BlockPow(g, h);
    DivUnique(0, B, 0);
    OrZero(Stored(g.page, pa));
    assert Shown(g.page, B, pa, 0) == Stored(g.page, pa) == pa;
    var d := pa % B;
    DivUnique(d, B, 0);
    OrPart(pa, Shift(g) + h * Bits(g));
    assert Shown(g.page, B, pa, d) == pa;
  }

  /** Where a block is not aligned, some byte of it comes out as its first. */
  lemma Misaligned(g: Geom, h: nat, pa: nat)
    requires g.Real() && pa % Fine(g.page) == 0 && pa < Reach(g.page) && pa % g.Block(h) != 0
    ensures Shown(g.page, g.Block(h), pa, pa % g.Block(h)) == pa
  {
    hide Or, Stored, Geom.Block;
    BlockPow(g, h);
    StoredIff(g.page, pa);
    DivUnique(pa % g.Block(h), g.Block(h), 0);
    OrPart(pa, Shift(g) + h * Bits(g));
  }

  /** Such a block: one of height 1 put at the second page of memory. Its second page comes out as its first. */
  lemma ShownExample(g: Geom)
    requires g.Real()
    ensures Shown(g.page, g.Block(1), g.page, g.page) == g.page
  {
    hide Or, Stored, Geom.Block, Shown, Geom.Real;
    PageInBlock(g);
    Misaligned(g, 1, g.page);
  }

  lemma PageInBlock(g: Geom)
    requires g.Real()
    ensures g.page % g.Block(1) == g.page > 0 && g.page % Fine(g.page) == 0 && g.page < Reach(g.page)
  {
    BlockGrows(g, 0, 1);
    hide Geom.Block;
    DivUnique(g.page, g.Block(1), 0);
  }
}
