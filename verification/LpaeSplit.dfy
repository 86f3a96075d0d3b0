/** Which blocks can be split without moving what they translate. */
module LpaeSplit {
  import opened Arith
  import opened LpaeLevels
  import opened LpaeSize
  import opened LpaeAddr
  import opened LpaeTable
  import opened LpaeOps

  // ---------------------------------------------------------------------------------------------
  // Or on digits.

  function High(a: nat, e: nat): nat { DivNat(a, Pow2(e)); a / Pow2(e) }
  lemma DivNat(a: nat, b: nat)
    requires b > 0
    ensures a / b >= 0
  {
  }

  function Low(a: nat, e: nat): nat { a % Pow2(e) }

  /** The high bits of an or. */
  lemma {:induction false} OrHigh(a: nat, b: nat, e: nat)
    ensures High(Or(a, b), e) == Or(High(a, e), High(b, e))
    decreases e
  {
    hide High;
    if e > 0 {
      OrHigh(a / 2, b / 2, e - 1);
      HalfHigh(a, e);
      HalfHigh(b, e);
      HalfHigh(Or(a, b), e);
    } else {
      NoneLow(a);
      NoneLow(b);
      NoneLow(Or(a, b));
    }
  }

  lemma NoneLow(a: nat)
    ensures High(a, 0) == a
  {
  }

  lemma HalfHigh(a: nat, e: nat)
    requires e > 0
    ensures High(a, e) == High(a / 2, e - 1)
  {
    DivDiv(a, 2, Pow2(e - 1));
    assert Pow2(e - 1) * 2 == 2 * Pow2(e - 1);
  }

  lemma OrParts(a: nat, b: nat, e: nat)
    ensures Or(a, b) == Or(High(a, e), High(b, e)) * Pow2(e) + Or(Low(a, e), Low(b, e))
  {
    hide Or, Pow2;
    OrHigh(a, b, e);
    OrLow(a, b, e);
    DivTimes(Or(a, b), Pow2(e));
  }

  /** Or works digit by digit. */
  lemma OrDigits(a: nat, q: nat, b: nat, r: nat, e: nat)
    requires q < Pow2(e) && r < Pow2(e)
    ensures Or(a * Pow2(e) + q, b * Pow2(e) + r) == Or(a, b) * Pow2(e) + Or(q, r)
  {
    hide Or, Pow2;
    OrParts(a * Pow2(e) + q, b * Pow2(e) + r, e);
    DivUnique(a * Pow2(e) + q, Pow2(e), a);
    DivUnique(b * Pow2(e) + r, Pow2(e), b);
  }

  lemma {:induction false} OrBounds(a: nat, b: nat)
    ensures a <= Or(a, b) <= a + b && b <= Or(a, b)
    decreases a + b
  {
    if a > 0 || b > 0 { OrBounds(a / 2, b / 2); }
  }

  lemma OrBelow(a: nat, b: nat, e: nat)
    requires a < Pow2(e) && b < Pow2(e)
    ensures Or(a, b) < Pow2(e)
  {
    hide Or, Pow2;
    OrLow(a, b, e);
    DivUnique(a, Pow2(e), 0);
    DivUnique(b, Pow2(e), 0);
  }

  lemma {:induction false} OrSelf(a: nat)
    ensures Or(a, a) == a
    decreases a
  {
    if a > 0 { OrSelf(a / 2); }
  }

  /** A digit that meets no other but one is 0. */
  lemma DigitZero(r: nat, e: nat, jx: nat)
    requires 2 < Pow2(e) && r < Pow2(e)
    requires forall j: nat :: j < Pow2(e) && j != jx ==> Or(r, j) == r + j
    ensures r == 0
  {
    hide Or, Pow2;
    var n := Pow2(e);
    OrSelf(r);
    OrBelow(r, n - 1, e);
    OrBelow(r, 1, e);
    var j := if jx != r then r else if jx != n - 1 then n - 1 else 1;
    assert Or(r, j) == r + j;
  }

  // ---------------------------------------------------------------------------------------------
  // Addresses just out of reach.

  lemma OverNarrow(page: nat, a: nat)
    requires page < 0x1_0000 && 0x1_0000_0000_0000 <= a < 0x2_0000_0000_0000
    ensures Stored(page, a) <= a - 0x1_0000_0000_0000 + 0x2_0000
  {
    hide Or, Pow2;
    Powers();
    var d, b := a - 0x1_0000_0000_0000, a / 0x10_0000_0000;
    OrLow(a, b, 48);
    DivUnique(a, 0x1_0000_0000_0000, 1);
    DivUnique(b, 0x1_0000_0000_0000, 0);
    OrBounds(d, b);
  }

  lemma OverWide(page: nat, a: nat)
    requires page >= 0x1_0000 && 0x10_0000_0000_0000 <= a < 0x11_0000_0000_0000 && a % 0x1_0000 == 0
    ensures Stored(page, a) <= a - 0x10_0000_0000_0000 + 0x2_0000
  {
    hide Or, Pow2, Decoded, Encoded;
    var d := a - 0x10_0000_0000_0000;
    EncodedOver(a, d);
    DecodedOver(page, Encoded(a));
  }

  lemma EncodedOver(a: nat, d: nat)
    requires a == 0x10_0000_0000_0000 + d && d < 0x1_0000_0000_0000 && a % 0x1_0000 == 0
    ensures Encoded(a) <= d + 0x2_0000 && Encoded(a) % 0x1_0000 == 0
  {
    hide Or, Pow2;
    Powers();
    var b := a / 0x10_0000_0000;
    DivUnique(a, 0x10_0000_0000, 0x1_0000 + d / 0x10_0000_0000);
    OrLow(a, b, 48);
    DivUnique(a, 0x1_0000_0000_0000, 16);
    DivUnique(b, 0x1_0000_0000_0000, 0);
    OrBounds(d, b);
    OrLow(d, b, 16);
    DivUnique(b, 0x1_0000, 1);
    OrSwap(0, b % 0x1_0000);
    OrZero(b % 0x1_0000);
    FloorMod(Or(d, b));
  }

  lemma FloorMod(x: nat)
    requires x % 0x1_0000 < 0x1000
    ensures x / 0x1000 * 0x1000 % 0x1_0000 == 0
  {
    DivUnique(x, 0x1000, x / 0x1_0000 * 16);
  }

  lemma DecodedOver(page: nat, e: nat)
    requires page >= 0x1_0000 && e % 0x1_0000 == 0 && e < 0x10_0000_0000_0000
    ensures Decoded(page, e) <= e
  {
    hide Or, Pow2;
    Powers();
    var q := e / 0x1_0000;
    assert e * 0x10_0000_0000 == q * 0x10_0000_0000_0000;
    DivUnique(e * 0x10_0000_0000, 0x10_0000_0000_0000, q);
    OrLow(e, e * 0x10_0000_0000, 52);
    DivUnique(e, 0x10_0000_0000_0000, 0);
    OrZero(e);
  }

  lemma StoredOver(page: nat, a: nat)
    requires Reach(page) <= a < Reach(page) + 0x1_0000_0000_0000 && a % Fine(page) == 0
    ensures Stored(page, a) <= a - Reach(page) + 0x2_0000
  {
    hide Stored;
    if page < 0x1_0000 { OverNarrow(page, a); } else { OverWide(page, a); }
  }

  // ---------------------------------------------------------------------------------------------
  // Pieces.

  lemma MulSame(a: nat, b: nat, c: nat)
    requires c > 0
    ensures a * c == b * c <==> a == b
  {
    if a < b { MulMonotone(a + 1, b, c); Distribute(a, 1, c); }
    if b < a { MulMonotone(b + 1, a, c); Distribute(b, 1, c); }
  }

  /** An address by the block it is in, the piece of that block, and the offset in it. */
  lemma Digits(g: Geom, h: nat, pa: nat)
    requires g.Ok() && h > 0
    ensures pa == (g.Cell(h, pa) * g.n + g.Index(h - 1, pa)) * g.Block(h - 1) + g.Off(h - 1, pa)
  {
    hide Geom.Block, Geom.Index;
    CellUp(g, h - 1, pa);
    DivTimes(pa, g.Block(h - 1));
  }

  /** What the whole block shows. */
  lemma BlockShows(g: Geom, h: nat, pa: nat, j: nat, off: nat)
    requires g.Real() && h > 0 && j < g.n && off < g.Block(h - 1)
    ensures Or(pa, j * g.Block(h - 1) + off) ==
      (g.Cell(h, pa) * g.n + Or(g.Index(h - 1, pa), j)) * g.Block(h - 1) + Or(g.Off(h - 1, pa), off)
  {
    hide Or, Pow2, Geom.Block, Geom.Cell, Geom.Index, Geom.Off, Geom.Real;
    assert g.Ok() by { RealOk(g); }
    Digits(g, h, pa);
    BlockPow(g, h - 1);
    PagePow(g);
    var c, r := g.Cell(h, pa), g.Index(h - 1, pa);
    OrDigits(c * g.n + r, g.Off(h - 1, pa), j, off, Shift(g) + (h - 1) * Bits(g));
    OrDigits(c, r, 0, j, Bits(g));
    OrZero(c);
  }

  lemma RealOk(g: Geom)
    requires g.Real()
    ensures g.Ok()
  {
  }

  /** What a piece would show, if addresses had no end. */
  lemma PieceShows(g: Geom, h: nat, pa: nat, j: nat, off: nat)
    requires g.Real() && h > 0 && off < g.Block(h - 1)
    ensures Or(pa + j * g.Block(h - 1), off) ==
      (g.Cell(h, pa) * g.n + g.Index(h - 1, pa) + j) * g.Block(h - 1) + Or(g.Off(h - 1, pa), off)
  {
    hide Or, Pow2, Geom.Block, Geom.Cell, Geom.Index, Geom.Off, Geom.Real;
    assert g.Ok() by { RealOk(g); }
    Digits(g, h, pa);
    BlockPow(g, h - 1);
    var c := g.Cell(h, pa) * g.n + g.Index(h - 1, pa);
    Distribute(c, j, g.Block(h - 1));
    OrDigits(c + j, g.Off(h - 1, pa), 0, off, Shift(g) + (h - 1) * Bits(g));
    OrZero(c + j);
  }

  /** The two numbers have no bit in common. */
  predicate BitsApart(r: nat, j: nat) { Or(r, j) == r + j }

  function PieceAt(g: Geom, h: nat, pa: nat, j: nat): nat requires g.Ok() && h > 0 { pa + j * g.Block(h - 1) }

  /** The j-th piece of a block for pa shows its byte at `off` as the block did. */
  predicate SameShown(g: Geom, h: nat, pa: nat, j: nat, off: nat) requires g.Ok() && h > 0 {
    Or(Stored(g.page, PieceAt(g, h, pa, j)), off) == Or(pa, j * g.Block(h - 1) + off)
  }

  /** A piece within reach shows its addresses as the block did, if and only if its number meets no bit of the block's.
      */
  lemma PieceInReach(g: Geom, h: nat, pa: nat, j: nat, off: nat)
    requires g.Real() && 0 < h <= g.H && Stored(g.page, pa) == pa && j < g.n && off < g.Block(h - 1)
    requires PieceAt(g, h, pa, j) < Reach(g.page)
    ensures SameShown(g, h, pa, j, off) <==> BitsApart(g.Index(h - 1, pa), j)
  {
    hide Or, Stored, Geom.Block, Geom.Cell, Geom.Index, Geom.Off, Geom.Real, Reach, Fine;
    assert g.Ok() by { RealOk(g); }
    var B := g.Block(h - 1);
    PieceFine(g, h, pa, j);
    StoredIff(g.page, pa + j * B);
    BlockShows(g, h, pa, j, off);
    PieceShows(g, h, pa, j, off);
    var c, r := g.Cell(h, pa) * g.n, g.Index(h - 1, pa);
    MulSame(c + Or(r, j), c + r + j, B);
  }

  lemma PieceFine(g: Geom, h: nat, pa: nat, j: nat)
    requires g.Real() && 0 < h <= g.H && Stored(g.page, pa) == pa
    ensures PieceAt(g, h, pa, j) % Fine(g.page) == 0 && pa < Reach(g.page)
  {
    hide Stored, Geom.Block, Geom.Real;
    assert g.Ok() by { RealOk(g); }
    StoredIff(g.page, pa);
    BlockFits(g, h - 1);
    DivUnique(j * g.Block(h - 1), g.Block(h - 1), j);
    ModOf(j * g.Block(h - 1), g.Block(h - 1), Fine(g.page));
    ModAdd(pa, j * g.Block(h - 1), Fine(g.page));
  }

  /** Blocks and their pieces are small against the reach. */
  lemma BlockSmall(g: Geom, h: nat)
    requires g.Real() && 0 < h <= g.H
    ensures g.Block(h) + g.Block(h - 1) + 0x2_0000 <= Reach(g.page) && g.Block(h) <= 0x8000_0000_0000
  {
    FirstBlocks(g);
    if g.page == 0x1000 {
      Sizes(g, 512, 0x1000);
    } else if g.page == 0x4000 {
      Sizes(g, 2048, 0x4000);
    } else {
      Sizes(g, 8192, 0x1_0000);
    }
    hide Geom.Block;
  }

  lemma FirstBlocks(g: Geom)
    requires g.Ok()
    ensures g.Block(0) == g.page && g.Block(1) == g.n * g.page && g.Block(2) == g.n * g.Block(1)
    ensures g.Block(3) == g.n * g.Block(2)
  {
  }

  lemma Sizes(g: Geom, n: nat, page: nat)
    requires g.Ok() && g.n == n && g.page == page
    ensures g.Block(1) == n * page && g.Block(2) == n * (n * page) && g.Block(3) == n * (n * (n * page))
  {
    FirstBlocks(g);
    hide Geom.Block;
  }

  /** A piece out of reach shows its addresses elsewhere, and its number meets the block's. */
  lemma PieceOver(g: Geom, h: nat, pa: nat, j: nat, off: nat)
    requires g.Real() && 0 < h <= g.H && Stored(g.page, pa) == pa && j < g.n && off < g.Block(h - 1)
    requires PieceAt(g, h, pa, j) >= Reach(g.page)
    ensures !SameShown(g, h, pa, j, off) && !BitsApart(g.Index(h - 1, pa), j)
  {
    hide Or, Stored, Geom.Block, Geom.Cell, Geom.Index, Geom.Off, Geom.Real, Reach, Fine;
    assert g.Ok() by { RealOk(g); }
    var B, r, a := g.Block(h - 1), g.Index(h - 1, pa), PieceAt(g, h, pa, j);
    PieceFine(g, h, pa, j);
    LastOfReach(g, h, pa, j);
    BlockSmall(g, h);
    StoredOver(g.page, a);
    OrBounds(Stored(g.page, a), off);
    BlockShows(g, h, pa, j, off);
    OrBounds(r, j);
    PagePow(g);
    OrBelow(r, j, Bits(g));
    BlockIs(g, h);
    OverLess(g.Cell(h, pa) * g.n, Or(r, j), r + j, g.n, B, g.Off(h - 1, pa), off, Reach(g.page), a,
        Or(Stored(g.page, a), off));
  }

  lemma BlockIs(g: Geom, h: nat)
    requires g.Ok() && h > 0
    ensures g.Block(h) == g.n * g.Block(h - 1)
  {
  }

  lemma OverLess(c: nat, o: nat, rj: nat, n: nat, B: nat, q: nat, off: nat, reach: nat, a: nat, after: nat)
    requires (c + n) * B == reach && a == (c + rj) * B + q && rj >= n > o && o + n >= rj + 1 && q < B && off < B
    requires reach >= n * B + B + 0x2_0000 && after <= a - reach + 0x2_0000 + off
    ensures (c + o) * B > after
  {
    Distribute(c, n, B);
    Distribute(c, rj, B);
    Distribute(c, o, B);
    MulMonotone(rj + 1, o + n, B);
    Distribute(rj, 1, B);
    Distribute(o, n, B);
  }

  /** It belongs to the last block within reach. */
  lemma LastOfReach(g: Geom, h: nat, pa: nat, j: nat)
    requires g.Real() && 0 < h <= g.H && Stored(g.page, pa) == pa && j < g.n && PieceAt(g, h, pa, j) >= Reach(g.page)
    ensures var c, r, B := g.Cell(h, pa) * g.n, g.Index(h - 1, pa), g.Block(h - 1);
      && PieceAt(g, h, pa, j) == (c + r + j) * B + g.Off(h - 1, pa)
      && (c + g.n) * B == Reach(g.page) && r + j >= g.n && PieceAt(g, h, pa, j) < Reach(g.page) + g.Block(h)
  {
    hide Stored, Geom.Block, Geom.Cell, Geom.Index, Geom.Off, Geom.Real, Reach, Fine;
    assert g.Ok() by { RealOk(g); }
    var c, r, B, q := g.Cell(h, pa), g.Index(h - 1, pa), g.Block(h - 1), g.Off(h - 1, pa);
    Digits(g, h, pa);
    Distribute(c * g.n + r, j, B);
    BlockIs(g, h);
    BlockFits(g, h);
    PieceFine(g, h, pa, j);
    var reach := Reach(g.page);
    DivTimes(reach, g.Block(h));
    var M := reach / g.Block(h);
    CellBelow(g, h, pa, M);
    LastNum(c, g.n, r, j, B, q, M, PieceAt(g, h, pa, j));
  }

  lemma CellBelow(g: Geom, h: nat, pa: nat, M: nat)
    requires g.Ok() && pa < M * g.Block(h)
    ensures g.Cell(h, pa) < M
  {
    DivBelow(pa, g.Block(h), M);
  }

  lemma LastNum(c: nat, n: nat, r: nat, j: nat, B: nat, q: nat, M: nat, a: nat)
    requires q < B && r < n && j < n && c < M && a == (c * n + r + j) * B + q && M * (n * B) <= a
    ensures (c * n + n) * B == M * (n * B) && r + j >= n && a < M * (n * B) + n * B
  {
    Regroup(M, n, B);
    AtMost(M * n, c * n + r + j, B, q);
    NextOne(c, n, M, r + j);
    LessTimes(c * n + r + j, c * n + n + n, B, q);
    Distribute(c * n + n, n, B);
  }

  lemma AtMost(x: nat, K: nat, B: nat, q: nat)
    requires q < B && x * B <= K * B + q
    ensures x <= K
  {
    if x >= K + 1 {
      Distribute(K, 1, B);
      MulMonotone(K + 1, x, B);
    }
  }

  lemma LessTimes(K: nat, L: nat, B: nat, q: nat)
    requires q < B && K < L
    ensures K * B + q < L * B
  {
    MulMonotone(K + 1, L, B);
    Distribute(K, 1, B);
  }

  lemma NextOne(c: nat, n: nat, M: nat, rj: nat)
    requires c < M && M * n <= c * n + rj && rj + 1 < 2 * n
    ensures M * n == c * n + n && rj >= n
  {
    Distribute(c, 1, n);
    Distribute(c, 2, n);
    if M >= c + 2 { MulMonotone(c + 2, M, n); }
  }

  /** A piece shows its addresses as the block did, if and only if its number meets no bit of the block's. */
  lemma PieceIff(g: Geom, h: nat, pa: nat, j: nat, off: nat)
    requires g.Real() && 0 < h <= g.H && Stored(g.page, pa) == pa && j < g.n && off < g.Block(h - 1)
    ensures SameShown(g, h, pa, j, off) <==> BitsApart(g.Index(h - 1, pa), j)
  {
    hide Stored, Geom.Block, Geom.Index, Geom.Real, Reach, SameShown, BitsApart;
    assert g.Ok() by { RealOk(g); }
    if PieceAt(g, h, pa, j) < Reach(g.page) { PieceInReach(g, h, pa, j, off); } else { PieceOver(g, h, pa, j, off); }
  }

  // ---------------------------------------------------------------------------------------------
  // Splitting down several levels.

  /** What is left of the block of x, when k pieces of height m from x on are left out, is found where it was. */
  ghost predicate Still(g: Geom, h: nat, m: nat, pa: nat, x: nat, k: nat) requires g.Ok() {
    forall y: nat :: g.Cell(h, y) == g.Cell(h, x) && !(x <= y < x + g.Span(m, k)) ==>
      Tracked(g, h, m, pa, x, y) == Or(pa, g.Off(h, y))
  }

  /**
   * The block is for an address with no bits between its pieces of height m and its own height, and none in the
   * number of any piece left.
   */
  predicate Undisturbed(g: Geom, h: nat, m: nat, pa: nat, u: nat, k: nat) requires g.Ok() {
    h <= m ||
    (pa % g.Block(h) < g.Block(m + 1) && forall j: nat :: j < g.n && !(u <= j < u + k) ==> BitsApart(g.Index(m, pa), j))
  }

  /** The address in the block of x at height h, with offset off in piece j. */
  function InPiece(g: Geom, h: nat, x: nat, j: nat, off: nat): nat requires g.Ok() && h > 0 {
    (g.Cell(h, x) * g.n + j) * g.Block(h - 1) + off
  }

  lemma InPieceIs(g: Geom, h: nat, x: nat, j: nat, off: nat)
    requires g.Ok() && h > 0 && j < g.n && off < g.Block(h - 1)
    ensures var y := InPiece(g, h, x, j, off);
      g.Cell(h, y) == g.Cell(h, x) && g.Index(h - 1, y) == j && g.Off(h - 1, y) == off
  {
    hide Geom.Block;
    var c, y := g.Cell(h, x), InPiece(g, h, x, j, off);
    DivUnique(y, g.Block(h - 1), c * g.n + j);
    Child(g.n, c, j);
    CellUp(g, h - 1, y);
  }

  lemma {:induction false} CellsUp(g: Geom, a: nat, b: nat, x: nat, y: nat)
    requires g.Ok() && a <= b && g.Cell(a, x) == g.Cell(a, y)
    ensures g.Cell(b, x) == g.Cell(b, y)
    decreases b - a
  {
    if a < b {
      CellUp(g, a, x);
      CellUp(g, a, y);
      CellsUp(g, a + 1, b, x, y);
    }
  }

  /** Which addresses of the block of x one level up are left out. */
  lemma LeftOut(g: Geom, m: nat, x: nat, k: nat, y: nat)
    requires g.Ok() && (k > 0 ==> g.Aligned(m, x)) && g.Index(m, x) + k <= g.n
    ensures x <= y < x + g.Span(m, k) <==>
      g.Cell(m + 1, y) == g.Cell(m + 1, x) && g.Index(m, x) <= g.Index(m, y) < g.Index(m, x) + k
  {
    hide Geom.Cell, Geom.Span, Geom.Index, Geom.Aligned;
    if k > 0 { SlotRange(g, m, x, k, y); } else { NoSpan(g, m); }
  }

  /** Any address of the block and any piece of it. */
  lemma ShownOnce(g: Geom, h: nat, pa: nat, x: nat, y: nat)
    requires g.Real() && 0 < h <= g.H && Stored(g.page, pa) == pa
    ensures g.Index(h - 1, y) < g.n
    ensures Or(Stored(g.page, PieceAt(g, h, pa, g.Index(h - 1, y))), g.Off(h - 1, y)) == Or(pa, g.Off(h, y))
      <==> BitsApart(g.Index(h - 1, pa), g.Index(h - 1, y))
  {
    hide Or, Stored, Geom.Block, Geom.Index, Geom.Off, Geom.Real, BitsApart, PieceAt;
    assert g.Ok() by { RealOk(g); }
    OffDown(g, h, y);
    PieceIff(g, h, pa, g.Index(h - 1, y), g.Off(h - 1, y));
  }

  /** One level. */
  lemma OnceIff(g: Geom, h: nat, pa: nat, x: nat, k: nat)
    requires g.Real() && 0 < h <= g.H && Stored(g.page, pa) == pa
    requires (k > 0 ==> g.Aligned(h - 1, x)) && g.Index(h - 1, x) + k <= g.n
    ensures Still(g, h, h - 1, pa, x, k) <==> Undisturbed(g, h, h - 1, pa, g.Index(h - 1, x), k)
  {
    hide Or, Stored, Geom.Block, Geom.Index, Geom.Off, Geom.Real, BitsApart, Tracked, Geom.Cell, Geom.Span,
         Geom.Aligned;
    assert g.Ok() by { RealOk(g); }
    var u := g.Index(h - 1, x);
    if Still(g, h, h - 1, pa, x, k) {
      var r := g.Index(h - 1, pa);
      forall j: nat | j < g.n && !(u <= j < u + k) ensures BitsApart(r, j) {
        var y := InPiece(g, h, x, j, 0);
        InPieceIs(g, h, x, j, 0);
        LeftOut(g, h - 1, x, k, y);
        TrackedOnce(g, h, pa, x, y);
        ShownOnce(g, h, pa, x, y);
      }
    }
    if Undisturbed(g, h, h - 1, pa, u, k) {
      forall y: nat | g.Cell(h, y) == g.Cell(h, x) && !(x <= y < x + g.Span(h - 1, k))
        ensures Tracked(g, h, h - 1, pa, x, y) == Or(pa, g.Off(h, y))
      {
        LeftOut(g, h - 1, x, k, y);
        TrackedOnce(g, h, pa, x, y);
        ShownOnce(g, h, pa, x, y);
      }
    }
  }

  /** Without bits in its digit, every piece is where it was, and within reach. */
  lemma NoDigit(g: Geom, h: nat, pa: nat, j: nat)
    requires g.Real() && 0 < h <= g.H && Stored(g.page, pa) == pa && j < g.n && g.Index(h - 1, pa) == 0
    ensures BitsApart(0, j) && Stored(g.page, PieceAt(g, h, pa, j)) == PieceAt(g, h, pa, j)
  {
    hide Or, Stored, Geom.Block, Geom.Index, Geom.Real, Reach, Fine;
    assert g.Ok() by { RealOk(g); }
    OrSwap(0, j);
    OrZero(j);
    if PieceAt(g, h, pa, j) >= Reach(g.page) { PieceOver(g, h, pa, j, 0); }
    PieceFine(g, h, pa, j);
    StoredIff(g.page, PieceAt(g, h, pa, j));
  }

  /** The digits of a piece below its own are those of the block. */
  lemma LowDigits(g: Geom, h: nat, m: nat, pa: nat, j: nat)
    requires g.Ok() && m + 1 < h
    ensures var p := PieceAt(g, h, pa, j); p % g.Block(h - 1) == pa % g.Block(h - 1) && g.Index(m, p) == g.Index(m, pa)
  {
    var d, b := j * g.Block(h - 1), g.Block(m + 1);
    assert b == g.n * g.Block(m);
    hide Geom.Block;
    DivUnique(d, g.Block(h - 1), j);
    BlockDivides(g, m + 1, h - 1, d);
    DivTimes(d, b);
    Regroup(d / b, g.n, g.Block(m));
    SameLow(pa, j, g.Block(h - 1));
    SameDigit(pa, d / b, g.n, g.Block(m));
  }

  lemma SameLow(a: nat, j: nat, b: nat)
    requires b > 0
    ensures (a + j * b) % b == a % b
  {
    DivTimes(a, b);
    Distribute(a / b, j, b);
    DivUnique(a + j * b, b, a / b + j);
  }

  lemma SameDigit(a: nat, t: nat, n: nat, b: nat)
    requires b > 0 && n > 0
    ensures (a + t * n * b) / b % n == a / b % n
  {
    DivTimes(a, b);
    Distribute(a / b, t * n, b);
    DivUnique(a + t * n * b, b, a / b + t * n);
    SameLow(a / b, t, n);
  }

  /** The digit at height h - 1 is 0 exactly if the address lies in the first piece. */
  lemma FirstPiece(g: Geom, h: nat, pa: nat)
    requires g.Ok() && h > 0
    ensures g.Index(h - 1, pa) == 0 <==> pa % g.Block(h) < g.Block(h - 1)
    ensures g.Index(h - 1, pa) == 0 ==> pa % g.Block(h) == pa % g.Block(h - 1)
  {
    OffDown(g, h, pa);
    hide Geom.Block, Geom.Index;
    MulAtLeastIf(g.Index(h - 1, pa), g.Block(h - 1));
  }

  lemma MulAtLeastIf(a: nat, b: nat)
    ensures a == 0 ==> a * b == 0
    ensures a > 0 ==> a * b >= b
  {
    if a > 0 { MulAtLeast(a, b); }
  }

  /** An address of the block: elsewhere in it, or in the piece that is split further. */
  lemma TrackedDown(g: Geom, h: nat, m: nat, pa: nat, x: nat, y: nat)
    requires g.Ok() && m < h
    ensures var j := g.Index(h - 1, y); var p := Stored(g.page, PieceAt(g, h, pa, j));
      Tracked(g, h, m, pa, x, y) ==
        if j == g.Index(h - 1, x) then Tracked(g, h - 1, m, p, x, y) else Or(p, g.Off(h - 1, y))
  {
    hide Or, Stored, Geom.Block, Geom.Index, Geom.Off;
  }

  /** Above the last level of a split, all pieces but one are left, so the digit must be 0. */
  lemma StillZero(g: Geom, h: nat, m: nat, pa: nat, x: nat, k: nat)
    requires g.Real() && m + 1 < h <= g.H && Stored(g.page, pa) == pa
    requires (k > 0 ==> g.Aligned(m, x)) && g.Index(m, x) + k <= g.n && Still(g, h, m, pa, x, k)
    ensures g.Index(h - 1, pa) == 0
  {
    hide Or, Stored, Geom.Block, Geom.Index, Geom.Off, Geom.Real, Tracked, Geom.Cell, Geom.Span, Geom.Aligned, Pow2,
         PieceAt;
    assert g.Ok() by { RealOk(g); }
    var jx, r := g.Index(h - 1, x), g.Index(h - 1, pa);
    ManyPieces(g);
    forall j: nat | j < Pow2(Bits(g)) && j != jx ensures Or(r, j) == r + j {
      var y := InPiece(g, h, x, j, 0);
      InPieceIs(g, h, x, j, 0);
      LeftOut(g, m, x, k, y);
      if g.Cell(m + 1, y) == g.Cell(m + 1, x) {
        CellUp(g, h - 1, x);
        CellUp(g, h - 1, y);
        CellsUp(g, m + 1, h - 1, x, y);
        assert false;
      }
      TrackedDown(g, h, m, pa, x, y);
      ShownOnce(g, h, pa, x, y);
    }
    DigitZero(r, Bits(g), jx);
  }

  lemma ManyPieces(g: Geom)
    requires g.Real()
    ensures g.n == Pow2(Bits(g)) && g.n > 2
  {
    PagePow(g);
  }

  /** With the digit 0, what is left of the block stays exactly if what is left of the piece split further does. */
  lemma StillDown(g: Geom, h: nat, m: nat, pa: nat, x: nat, k: nat)
    requires g.Real() && m + 1 < h <= g.H && Stored(g.page, pa) == pa
    requires (k > 0 ==> g.Aligned(m, x)) && g.Index(m, x) + k <= g.n && g.Index(h - 1, pa) == 0
    ensures Still(g, h, m, pa, x, k) <==> Still(g, h - 1, m, PieceAt(g, h, pa, g.Index(h - 1, x)), x, k)
  {
    hide Or, Stored, Geom.Block, Geom.Index, Geom.Off, Geom.Real, Tracked, Geom.Cell, Geom.Span, Geom.Aligned, PieceAt,
         BitsApart;
    assert g.Ok() by { RealOk(g); }
    var d, p := h - 1, PieceAt(g, h, pa, g.Index(h - 1, x));
    if Still(g, h, m, pa, x, k) {
      forall y: nat | g.Cell(d, y) == g.Cell(d, x) && !(x <= y < x + g.Span(m, k))
        ensures Tracked(g, d, m, p, x, y) == Or(p, g.Off(d, y))
      {
        OneDown(g, h, m, pa, x, y);
      }
    }
    if Still(g, h - 1, m, p, x, k) {
      forall y: nat | g.Cell(h, y) == g.Cell(h, x) && !(x <= y < x + g.Span(m, k))
        ensures Tracked(g, h, m, pa, x, y) == Or(pa, g.Off(h, y))
      {
        OneDown(g, h, m, pa, x, y);
      }
    }
  }

  lemma OneDown(g: Geom, h: nat, m: nat, pa: nat, x: nat, y: nat)
    requires g.Real() && m + 1 < h <= g.H && Stored(g.page, pa) == pa && g.Index(h - 1, pa) == 0
    ensures var p := PieceAt(g, h, pa, g.Index(h - 1, x));
      && (g.Cell(h - 1, y) == g.Cell(h - 1, x) <==>
            g.Cell(h, y) == g.Cell(h, x) && g.Index(h - 1, y) == g.Index(h - 1, x))
      && (g.Index(h - 1, y) == g.Index(h - 1, x) ==>
            Tracked(g, h, m, pa, x, y) == Tracked(g, h - 1, m, p, x, y) &&
              Or(pa, g.Off(h, y)) == Or(p, g.Off(h - 1, y)))
      && (g.Index(h - 1, y) != g.Index(h - 1, x) ==> Tracked(g, h, m, pa, x, y) == Or(pa, g.Off(h, y)))
  {
    hide Or, Stored, Geom.Block, Geom.Index, Geom.Off, Geom.Real, Tracked, Geom.Cell, PieceAt, BitsApart;
    assert g.Ok() by { RealOk(g); }
    CellUp(g, h - 1, x);
    CellUp(g, h - 1, y);
    NoDigit(g, h, pa, g.Index(h - 1, y));
    TrackedDown(g, h, m, pa, x, y);
    ShownOnce(g, h, pa, x, y);
  }

  /** Nothing left of a block moves when it is split, if and only if its address has no bits in the way. */
  lemma {:induction false} StillIff(g: Geom, h: nat, m: nat, pa: nat, x: nat, k: nat)
    requires g.Real() && m < h <= g.H && Stored(g.page, pa) == pa
    requires (k > 0 ==> g.Aligned(m, x)) && g.Index(m, x) + k <= g.n
    ensures Still(g, h, m, pa, x, k) <==> Undisturbed(g, h, m, pa, g.Index(m, x), k)
    decreases h
  {
    hide Or, Stored, Geom.Block, Geom.Index, Geom.Off, Geom.Real, Still, PieceAt, Geom.Aligned;
    assert g.Ok() by { RealOk(g); }
    if h == m + 1 {
      OnceIff(g, h, pa, x, k);
    } else {
      var p := PieceAt(g, h, pa, g.Index(h - 1, x));
      FirstPiece(g, h, pa);
      if m + 1 < h - 1 { BlockGrows(g, m + 1, h - 1); }
      LowDigits(g, h, m, pa, g.Index(h - 1, x));
      if g.Index(h - 1, pa) == 0 {
        NoDigit(g, h, pa, g.Index(h - 1, x));
        StillDown(g, h, m, pa, x, k);
        StillIff(g, h - 1, m, p, x, k);
      } else if Still(g, h, m, pa, x, k) {
        StillZero(g, h, m, pa, x, k);
      }
    }
  }

  // ---------------------------------------------------------------------------------------------
  // On tables.

  /** What the block of a leaf translates. */
  lemma BlockTrans(g: Geom, at: map<Label, nat>, t: Tab, h: nat, x: nat, y: nat)
    requires Shape(g, at, t) && h <= g.H && Entry(g, t, h, x).Leaf? && g.Cell(h, y) == g.Cell(h, x)
    ensures Trans(g, t, y) == Phys(Or(Entry(g, t, h, x).pa, g.Off(h, y)), Entry(g, t, h, x).prot)
  {
    assert g.Ok();
    hide Or, Shape, Geom.Ok, Geom.Cell, Geom.Index, Geom.Off, Look, Trans;
    SameCell(g, h, x, y);
    LookDown(g, at, t, h, y);
    LookHere(g, t, Slot(g, h, x), y);
  }

  /** After a split, exactly the pieces left out have changed their translation, if and only if the block's address has
      no bits in the way. */
  lemma TornIff(g: Geom, at: map<Label, nat>, t: Tab, t': Tab, x: nat, k: nat, h: nat, m: nat)
    requires g.Real() && Shape(g, at, t) && m <= h <= g.H && Entry(g, t, h, x).Leaf?
    requires Stored(g.page, Entry(g, t, h, x).pa) == Entry(g, t, h, x).pa
    requires (k > 0 ==> m < h && g.Aligned(m, x)) && g.Index(m, x) + k <= g.n
    requires Torn(g, t, t', x, g.Span(m, k), h, m)
    ensures Unmapped(g, t, t', x, g.Span(m, k)) <==> Undisturbed(g, h, m, Entry(g, t, h, x).pa, g.Index(m, x), k)
  {
    hide Or, Stored, Shape, Geom.Cell, Geom.Index, Geom.Off, Geom.Real, Geom.Span, Geom.Aligned, Trans, Tracked, Entry,
         Undisturbed;
    assert g.Ok() by { RealOk(g); }
    var e := Entry(g, t, h, x);
    if m < h { StillIff(g, h, m, e.pa, x, k); } else { NotSplit(g, h, m, e.pa, x, k); }
    forall y: nat | g.Cell(h, y) == g.Cell(h, x) ensures Trans(g, t, y) == Phys(Or(e.pa, g.Off(h, y)), e.prot) {
      BlockTrans(g, at, t, h, x, y);
    }
    if Unmapped(g, t, t', x, g.Span(m, k)) {
      forall y: nat | g.Cell(h, y) == g.Cell(h, x) && !(x <= y < x + g.Span(m, k))
        ensures Tracked(g, h, m, e.pa, x, y) == Or(e.pa, g.Off(h, y))
      {
        assert Trans(g, t', y) == Trans(g, t, y);
      }
    }
  }

  lemma NotSplit(g: Geom, h: nat, m: nat, pa: nat, x: nat, k: nat)
    requires g.Ok() && h <= m
    ensures Still(g, h, m, pa, x, k) && Undisturbed(g, h, m, pa, g.Index(m, x), k)
  {
    hide Or, Stored, Geom.Block, Geom.Index, Geom.Off;
  }

  /** An aligned block is never in the way. */
  lemma AlignedUndisturbed(g: Geom, h: nat, m: nat, pa: nat, u: nat, k: nat)
    requires g.Ok() && pa % g.Block(h) == 0
    ensures Undisturbed(g, h, m, pa, u, k)
  {
    if m < h {
      var r := g.Index(m, pa);
      BlockDivides(g, m + 1, h, pa);
      FirstPiece(g, m + 1, pa);
      hide Geom.Block, Geom.Index, Or;
      forall j: nat ensures BitsApart(r, j) {
        OrSwap(0, j);
        OrZero(j);
      }
    }
  }

  /** Splitting a block further along x. */
  lemma TornTwice(g: Geom, t0: Tab, t1: Tab, t2: Tab, x: nat, len: nat, h: nat, m: nat)
    requires g.Ok() && m < h && Entry(g, t0, h, x).Leaf? && Entry(g, t1, h - 1, x).Leaf?
    requires Entry(g, t1, h - 1, x) ==
      Leaf(Stored(g.page, PieceAt(g, h, Entry(g, t0, h, x).pa, g.Index(h - 1, x))), Entry(g, t0, h, x).prot)
    requires Torn(g, t0, t1, x, 0, h, h - 1) && Torn(g, t1, t2, x, len, h - 1, m)
    ensures Torn(g, t0, t2, x, len, h, m)
  {
    hide Or, Stored, Geom.Cell, Geom.Index, Geom.Off, Trans, Tracked, Entry, PieceAt;
    var pa := Entry(g, t0, h, x).pa;
    forall y: nat ensures Trans(g, t2, y) == if x <= y < x + len then Fault else TornTrans(g, t0, x, h, m, y) {
      CellUp(g, h - 1, x);
      CellUp(g, h - 1, y);
      TrackedDown(g, h, m, pa, x, y);
      TrackedDown(g, h, h - 1, pa, x, y);
      TrackedNone(g, h - 1, Stored(g.page, PieceAt(g, h, pa, g.Index(h - 1, y))), x, y);
      assert Trans(g, t1, y) == TornTrans(g, t0, x, h, h - 1, y);
    }
  }

  lemma TrackedNone(g: Geom, h: nat, pa: nat, x: nat, y: nat)
    requires g.Ok()
    ensures Tracked(g, h, h, pa, x, y) == Or(pa, g.Off(h, y))
  {
  }

  /** A split of no piece leaves everything translated that was. */
  lemma TornThere(g: Geom, at: map<Label, nat>, t: Tab, t': Tab, x: nat, h: nat, m: nat, a: nat, len: nat)
    requires Shape(g, at, t) && h <= g.H && Entry(g, t, h, x).Leaf? && Torn(g, t, t', x, 0, h, m)
    requires AllThere(g, t, a, len)
    ensures AllThere(g, t', a, len)
  {
    hide Shape, Geom.Cell, Trans, Tracked, Entry;
  }

  /** Without a split, exactly the range has changed. */
  lemma TornNone(g: Geom, at: map<Label, nat>, t: Tab, t': Tab, x: nat, len: nat, h: nat)
    requires Shape(g, at, t) && h <= g.H && Entry(g, t, h, x).Leaf? && Unmapped(g, t, t', x, len)
    ensures Torn(g, t, t', x, len, h, h)
  {
    assert g.Ok();
    hide Or, Shape, Geom.Cell, Geom.Off, Trans, Tracked, Entry;
    var pa := Entry(g, t, h, x).pa;
    forall y: nat ensures Trans(g, t', y) == if x <= y < x + len then Fault else TornTrans(g, t, x, h, h, y) {
      TrackedNone(g, h, pa, x, y);
      if g.Cell(h, y) == g.Cell(h, x) { BlockTrans(g, at, t, h, x, y); }
    }
  }
}
