/** 64-bit words as numbers: what or, shifts, masks and sums of words are as arithmetic. */
module LpaeNum {
  import opened Arith
  import opened LpaeSize
  import opened LpaeAddr

  type Word = bv64

  // Operations on words by name, so that a proof can look at what it needs of them.
  function Half(w: Word): Word { w >> 1 }
  function Twice(w: Word): Word { w << 1 }
  function Both(a: Word, b: Word): Word { a | b }
  function Mask(w: Word, m: Word): Word { w & m }
  function Add(a: Word, b: Word, c: Word): Word { a + b + c }
  function Plus(a: Word, b: Word): Word { a + b }
  function Minus(a: Word, b: Word): Word { a - b }
  function Low(w: Word): Word { w & 0x1FFF }
  function Down36(w: Word): Word { w >> 36 }
  function Up36(w: Word): Word { w << 36 }
  function Bits47To12(w: Word): Word { w & 0x0000_FFFF_FFFF_F000 }
  function Bits51To16(w: Word): Word { w & 0x000F_FFFF_FFFF_0000 }
  function Bit(w: Word): nat { if w & 1 == 1 then 1 else 0 }

  /** The number the low k bits stand for. */
  function Num(w: Word, k: nat): nat
    decreases k
  {
    if k == 0 then 0 else Bit(w) + 2 * Num(Half(w), k - 1)
  }

  function Value(w: Word): nat { Num(w, 64) }

  lemma {:induction false} NumOr(a: Word, b: Word, k: nat)
    ensures Num(Both(a, b), k) == Or(Num(a, k), Num(b, k))
    decreases k
  {
    hide Both, Half, Bit, Or;
    if k > 0 {
      NumOr(Half(a), Half(b), k - 1);
      OrBits(a, b);
      OrStep(Bit(a), Bit(b), Num(Half(a), k - 1), Num(Half(b), k - 1));
    } else {
      OrZero(0);
    }
  }

  lemma OrBits(a: Word, b: Word)
    ensures Half(Both(a, b)) == Both(Half(a), Half(b)) && Bit(a) <= 1 && Bit(b) <= 1
    ensures Bit(Both(a, b)) == if Bit(a) == 1 || Bit(b) == 1 then 1 else 0
  {
  }

  lemma OrStep(x: nat, y: nat, a: nat, b: nat)
    requires x <= 1 && y <= 1
    ensures Or(x + 2 * a, y + 2 * b) == 2 * Or(a, b) + if x == 1 || y == 1 then 1 else 0
  {
  }

  /** The low j of k bits. */
  lemma {:induction false} NumLow(w: Word, j: nat, k: nat)
    requires j <= k
    ensures Num(w, j) == Num(w, k) % Pow2(j)
    decreases j
  {
    hide Half, Bit;
    if j > 0 {
      NumLow(Half(w), j - 1, k - 1);
      OrBits(w, w);
      HalfModBack(Bit(w), Num(Half(w), k - 1), Pow2(j - 1));
    }
  }

  lemma HalfModBack(x: nat, a: nat, p: nat)
    requires x <= 1 && p > 0
    ensures (x + 2 * a) % (2 * p) == x + 2 * (a % p)
  {
    DivTimes(a, p);
    var q := a / p;
    assert 2 * (q * p) == q * (2 * p);
    DivUnique(x + 2 * a, 2 * p, q);
  }

  // ---------------------------------------------------------------------------------------------
  // Shifts.

  function Shr(w: Word, j: nat): Word
    decreases j
  {
    if j == 0 then w else Shr(Half(w), j - 1)
  }

  function Shl(w: Word, j: nat): Word
    decreases j
  {
    if j == 0 then w else Shl(Twice(w), j - 1)
  }

  lemma {:induction false} NumShr(w: Word, j: nat, k: nat)
    ensures Num(Shr(w, j), k) == Num(w, j + k) / Pow2(j)
    decreases j
  {
    hide Half, Bit;
    if j > 0 {
      NumShr(Half(w), j - 1, k);
      OrBits(w, w);
      assert Num(w, j + k) / 2 == Num(Half(w), j - 1 + k);
      DivDiv(Num(w, j + k), 2, Pow2(j - 1));
    }
  }

  lemma {:induction false} NumShl(w: Word, j: nat, k: nat)
    requires j + k <= 64
    ensures Num(Shl(w, j), j + k) == Num(w, k) * Pow2(j)
    decreases j
  {
    hide Num, Twice;
    if j > 0 {
      NumShl(Twice(w), j - 1, k + 1);
      NumDouble(w, k + 1);
      Regroup(Num(w, k), 2, Pow2(j - 1));
    }
  }

  lemma {:induction false} ShrAdd(w: Word, a: nat, b: nat)
    ensures Shr(w, a + b) == Shr(Shr(w, a), b)
    decreases a
  {
    hide Half;
    if a > 0 { ShrAdd(Half(w), a - 1, b); }
  }

  lemma {:induction false} ShlAdd(w: Word, a: nat, b: nat)
    ensures Shl(w, a + b) == Shl(Shl(w, a), b)
    decreases a
  {
    hide Twice;
    if a > 0 { ShlAdd(Twice(w), a - 1, b); }
  }

  function Right4(w: Word): Word { w >> 4 }
  function Left4(w: Word): Word { w << 4 }
  function Right12(w: Word): Word { w >> 12 }
  function Left12(w: Word): Word { w << 12 }

  lemma Shr4(w: Word)
    ensures Shr(w, 4) == Right4(w)
  {
    HalfFour(w);
    hide Half, Right4;
    assert Shr(w, 4) == Shr(Half(w), 3) == Shr(Half(Half(w)), 2) == Shr(Half(Half(Half(w))), 1);
  }

  lemma Shl4(w: Word)
    ensures Shl(w, 4) == Left4(w)
  {
    HalfFour(w);
    hide Twice, Left4;
    assert Shl(w, 4) == Shl(Twice(w), 3) == Shl(Twice(Twice(w)), 2) == Shl(Twice(Twice(Twice(w))), 1);
  }

  lemma HalfFour(w: Word)
    ensures Half(Half(Half(Half(w)))) == Right4(w) && Twice(Twice(Twice(Twice(w)))) == Left4(w)
  {
  }

  lemma Shr12(w: Word)
    ensures Shr(w, 12) == Right12(w)
  {
    FourThrice(w);
    hide Shr, Right4, Right12;
    ShrAdd(w, 4, 8);
    ShrAdd(Right4(w), 4, 4);
    Shr4(w);
    Shr4(Right4(w));
    Shr4(Right4(Right4(w)));
  }

  lemma Shl12(w: Word)
    ensures Shl(w, 12) == Left12(w)
  {
    FourThrice(w);
    hide Shl, Left4, Left12;
    ShlAdd(w, 4, 8);
    ShlAdd(Left4(w), 4, 4);
    Shl4(w);
    Shl4(Left4(w));
    Shl4(Left4(Left4(w)));
  }

  lemma FourThrice(w: Word)
    ensures Right4(Right4(Right4(w))) == Right12(w) && Left4(Left4(Left4(w))) == Left12(w)
  {
  }

  lemma Shr36(w: Word)
    ensures Shr(w, 36) == Right12(Right12(Right12(w)))
    ensures Shr(w, 48) == Right12(Right12(Right12(Right12(w))))
  {
    hide Shr, Right12;
    ShrAdd(w, 12, 24);
    ShrAdd(Right12(w), 12, 12);
    ShrAdd(w, 36, 12);
    Shr12(w);
    Shr12(Right12(w));
    Shr12(Right12(Right12(w)));
    Shr12(Right12(Right12(Right12(w))));
  }

  lemma Shl36(w: Word)
    ensures Shl(w, 36) == Left12(Left12(Left12(w)))
  {
    hide Shl, Left12;
    ShlAdd(w, 12, 24);
    ShlAdd(Left12(w), 12, 12);
    Shl12(w);
    Shl12(Left12(w));
    Shl12(Left12(Left12(w)));
  }

  // ---------------------------------------------------------------------------------------------
  // Masks.

  /** The low k bits are set. */
  predicate Ones(m: Word, k: nat)
    decreases k
  {
    k == 0 || (Bit(m) == 1 && Ones(Half(m), k - 1))
  }

  lemma {:induction false} OnesAdd(m: Word, a: nat, b: nat)
    requires Ones(m, a) && Ones(Shr(m, a), b)
    ensures Ones(m, a + b)
    decreases a
  {
    hide Half, Bit;
    if a > 0 { OnesAdd(Half(m), a - 1, b); }
  }

  lemma {:induction false} OnesLess(m: Word, j: nat, k: nat)
    requires j <= k && Ones(m, k)
    ensures Ones(m, j)
    decreases j
  {
    hide Half, Bit;
    if j > 0 { OnesLess(Half(m), j - 1, k - 1); }
  }

  lemma Ones4(m: Word)
    requires Mask(m, 0xF) == 0xF
    ensures Ones(m, 4)
  {
    FourBits(m);
    hide Half, Bit;
    assert Ones(Half(Half(Half(Half(m)))), 0);
    assert Ones(Half(Half(Half(m))), 1);
    assert Ones(Half(Half(m)), 2);
    assert Ones(Half(m), 3);
  }

  lemma FourBits(m: Word)
    requires Mask(m, 0xF) == 0xF
    ensures Bit(m) == 1 && Bit(Half(m)) == 1 && Bit(Half(Half(m))) == 1 && Bit(Half(Half(Half(m)))) == 1
  {
  }

  lemma Ones12(m: Word)
    requires Mask(m, 0xFFF) == 0xFFF
    ensures Ones(m, 12)
  {
    TwelveBits(m);
    hide Ones, Shr, Mask, Right4;
    Ones4(m);
    Ones4(Right4(m));
    Ones4(Right4(Right4(m)));
    Shr4(m);
    Shr4(Right4(m));
    OnesAdd(Right4(m), 4, 4);
    OnesAdd(m, 4, 8);
  }

  lemma TwelveBits(m: Word)
    requires Mask(m, 0xFFF) == 0xFFF
    ensures Mask(m, 0xF) == 0xF && Mask(Right4(m), 0xF) == 0xF && Mask(Right4(Right4(m)), 0xF) == 0xF
  {
  }

  /** Twelve bits and k above them. */
  lemma OnesOn(m: Word, k: nat)
    requires Mask(m, 0xFFF) == 0xFFF && Ones(Right12(m), k)
    ensures Ones(m, 12 + k)
  {
    hide Ones, Shr, Mask, Right12;
    Ones12(m);
    Shr12(m);
    OnesAdd(m, 12, k);
  }

  lemma Ones13()
    ensures Ones(0x1FFF, 13)
  {
    assert Ones(1, 1) by { Ones4(0xF); OneBit(); }
    hide Ones;
    OnesOn(0x1FFF, 1);
  }

  lemma OneBit()
    ensures Ones(1, 1)
  {
    assert Ones(Half(1), 0);
  }

  lemma Ones36()
    ensures Ones(0xF_FFFF_FFFF, 36)
  {
    assert Ones(0, 0);
    hide Ones;
    OnesOn(0xFFF, 0);
    OnesOn(0xFF_FFFF, 12);
    OnesOn(0xF_FFFF_FFFF, 24);
  }

  lemma Ones48()
    ensures Ones(0xFFFF_FFFF_FFFF, 48)
  {
    Ones36();
    hide Ones;
    OnesOn(0xFFFF_FFFF_FFFF, 36);
  }

  lemma Ones52()
    ensures Ones(0xF_FFFF_FFFF_FFFF, 52)
  {
    Ones4(0xF);
    hide Ones;
    OnesOn(0xFFFF, 4);
    OnesOn(0xFFF_FFFF, 16);
    OnesOn(0xFF_FFFF_FFFF, 28);
    OnesOn(0xF_FFFF_FFFF_FFFF, 40);
  }

  lemma Ones63()
    ensures Ones(0x7FFF_FFFF_FFFF_FFFF, 63)
  {
    assert Ones(7, 3) by { ThreeBits(); }
    hide Ones;
    OnesOn(0x7FFF, 3);
    OnesOn(0x7FF_FFFF, 15);
    OnesOn(0x7F_FFFF_FFFF, 27);
    OnesOn(0x7_FFFF_FFFF_FFFF, 39);
    OnesOn(0x7FFF_FFFF_FFFF_FFFF, 51);
  }

  lemma ThreeBits()
    ensures Ones(7, 3)
  {
    OneBit();
    assert Half(7) == 3 && Half(3) == 1 && Bit(7) == 1 && Bit(3) == 1;
    assert Ones(3, 2);
  }

  lemma {:induction false} NumMask(w: Word, m: Word, k: nat)
    requires Ones(m, k)
    ensures Num(Mask(w, m), k) == Num(w, k)
    decreases k
  {
    hide Mask, Half, Bit;
    if k > 0 {
      NumMask(Half(w), Half(m), k - 1);
      MaskBits(w, m);
    }
  }

  lemma MaskBits(w: Word, m: Word)
    requires Bit(m) == 1
    ensures Half(Mask(w, m)) == Mask(Half(w), Half(m)) && Bit(Mask(w, m)) == Bit(w)
  {
  }

  /** Bits above k that are not set do not matter. */
  lemma {:induction false} NumAbove(w: Word, k: nat, more: nat)
    requires Shr(w, k) == 0
    ensures Num(w, k + more) == Num(w, k)
    decreases k + more
  {
    ZeroBits();
    hide Half, Bit;
    if k > 0 {
      NumAbove(Half(w), k - 1, more);
    } else if more > 0 {
      NumAbove(Half(w), 0, more - 1);
    }
  }

  lemma ZeroBits()
    ensures Half(0) == 0 && Bit(0) == 0
  {
  }

  lemma LowSame(w: Word, k: nat)
    requires k <= 63
    ensures Num(Mask(w, 0x7FFF_FFFF_FFFF_FFFF), k) == Num(w, k)
  {
    hide Num, Ones;
    Ones63();
    OnesLess(0x7FFF_FFFF_FFFF_FFFF, k, 63);
    NumMask(w, 0x7FFF_FFFF_FFFF_FFFF, k);
  }

  lemma NumDouble(w: Word, k: nat)
    requires 0 < k <= 64
    ensures Num(Twice(w), k) == 2 * Num(w, k - 1)
  {
    TwiceBits(w);
    hide Half, Twice, Bit, Mask;
    LowSame(w, k - 1);
  }

  lemma TwiceBits(w: Word)
    ensures Bit(Twice(w)) == 0 && Half(Twice(w)) == Mask(w, 0x7FFF_FFFF_FFFF_FFFF)
  {
  }

  // ---------------------------------------------------------------------------------------------
  // Sums.

  /** Words of thirteen bits, so that sums do not wrap around. */
  predicate Small(w: Word) { w & 0xFFFF_FFFF_FFFF_E000 == 0 }

  /** The sum of small words, with a carry, in its low k bits. */
  lemma {:induction false} NumSum(a: Word, b: Word, c: Word, k: nat)
    requires Small(a) && Small(b) && (c == 0 || c == 1)
    ensures Num(Add(a, b, c), k) == (Num(a, k) + Num(b, k) + Bit(c)) % Pow2(k)
    decreases k
  {
    var cy := Carry(a, b, c);
    SmallHalf(a);
    SmallHalf(b);
    hide Add, Half, Bit, Carry, Small;
    if k > 0 {
      NumSum(Half(a), Half(b), cy, k - 1);
      SumHalf(a, b, c);
      SumBits(a, b, c);
      HalfModBack(Bit(Add(a, b, c)), Num(Half(a), k - 1) + Num(Half(b), k - 1) + Bit(cy), Pow2(k - 1));
    }
  }

  lemma SmallHalf(w: Word)
    requires Small(w)
    ensures Small(Half(w))
  {
  }

  function Carry(a: Word, b: Word, c: Word): (cy: Word)
    ensures cy == 0 || cy == 1
  {
    if Bit(a) + Bit(b) + Bit(c) >= 2 then 1 else 0
  }

  lemma SumBits(a: Word, b: Word, c: Word)
    requires c == 0 || c == 1
    ensures Bit(a) + Bit(b) + Bit(c) == Bit(Add(a, b, c)) + 2 * Bit(Carry(a, b, c)) && Bit(Add(a, b, c)) <= 1
  {
  }

  /** Half a sum is the sum of the halves and the carry. */
  lemma SumHalf(a: Word, b: Word, c: Word)
    requires Small(a) && Small(b) && (c == 0 || c == 1)
    ensures Half(Add(a, b, c)) == Add(Half(a), Half(b), Carry(a, b, c))
  {
    BitIs(a);
    BitIs(b);
    hide Half, Add, Small;
    if Bit(a) == 0 && Bit(b) == 0 {
      EvenEven(a, b, c);
    } else if Bit(a) == 1 && Bit(b) == 1 {
      OddOdd(a, b, c);
    } else if Bit(a) == 0 {
      EvenOdd(a, b, c);
    } else {
      EvenOdd(b, a, c);
      AddSwap(a, b, c);
      AddSwap(Half(a), Half(b), c);
    }
  }

  lemma BitIs(w: Word)
    ensures Bit(w) == 0 || Bit(w) == 1
  {
  }

  lemma AddSwap(a: Word, b: Word, c: Word)
    ensures Add(a, b, c) == Add(b, a, c)
  {
  }

  lemma EvenEven(a: Word, b: Word, c: Word)
    requires Small(a) && Small(b) && (c == 0 || c == 1) && Bit(a) == 0 && Bit(b) == 0
    ensures Half(Add(a, b, c)) == Add(Half(a), Half(b), 0)
  {
  }

  lemma EvenOdd(a: Word, b: Word, c: Word)
    requires Small(a) && Small(b) && (c == 0 || c == 1) && Bit(a) == 0 && Bit(b) == 1
    ensures Half(Add(a, b, c)) == Add(Half(a), Half(b), c)
  {
  }

  lemma OddOdd(a: Word, b: Word, c: Word)
    requires Small(a) && Small(b) && (c == 0 || c == 1) && Bit(a) == 1 && Bit(b) == 1
    ensures Half(Add(a, b, c)) == Add(Half(a), Half(b), 1)
  {
    OneLess(a);
    MoveOne(a, b);
    OneMore(b);
    CarryOver(Half(a), Half(b));
    hide Half, Small, Bit, Add, Pred, Succ, Even14;
    if c == 0 {
      EvenOdd(Pred(a), b, 1);
    } else {
      EvenNext(Pred(a), Succ(b));
    }
  }

  function Pred(w: Word): Word { w - 1 }
  function Succ(w: Word): Word { w + 1 }
  predicate Even14(w: Word) { w & 0xFFFF_FFFF_FFFF_C001 == 0 }

  lemma MoveOne(a: Word, b: Word)
    ensures Add(a, b, 0) == Add(Pred(a), b, 1) && Add(a, b, 1) == Add(Pred(a), Succ(b), 1)
  {
    assert Add(a, b, 0) == Add(a - 1, b, 1);
    assert Add(a, b, 1) == Add(a - 1, b + 1, 1);
  }

  lemma CarryOver(p: Word, q: Word)
    ensures Add(p, Succ(q), 0) == Add(p, q, 1)
  {
    assert Add(p, q + 1, 0) == Add(p, q, 1);
  }

  lemma OneLess(a: Word)
    requires Small(a) && Bit(a) == 1
    ensures Small(Pred(a)) && Bit(Pred(a)) == 0 && Half(Pred(a)) == Half(a)
  {
  }

  lemma OneMore(b: Word)
    requires Small(b) && Bit(b) == 1
    ensures Even14(Succ(b)) && Half(Succ(b)) == Succ(Half(b))
  {
  }

  lemma EvenNext(a: Word, b: Word)
    requires Small(a) && Even14(b) && Bit(a) == 0
    ensures Half(Add(a, b, 1)) == Add(Half(a), Half(b), 0)
  {
  }

  // ---------------------------------------------------------------------------------------------
  // Values.

  lemma ValueOr(a: Word, b: Word)
    ensures Value(Both(a, b)) == Or(Value(a), Value(b))
  {
    NumOr(a, b, 64);
  }

  /** Low bits of a word. */
  lemma ValueMasked(w: Word, m: Word, k: nat)
    requires k <= 64 && Ones(m, k) && Shr(Mask(w, m), k) == 0
    ensures Value(Mask(w, m)) == Num(w, k) == Value(w) % Pow2(k)
  {
    hide Num, Shr, Mask, Ones;
    NumMask(w, m, k);
    NumAbove(Mask(w, m), k, 64 - k);
    NumLow(w, k, 64);
  }

  lemma ValueLow(v: Word)
    ensures Value(Low(v)) == Num(v, 13) == Value(v) % 0x2000 && Small(Low(v))
  {
    Power13();
    LowShifted(v);
    hide Num, Shr, Mask, Ones, Right12, Half, Low, Small, Pow2;
    Ones13();
    assert Shr(Mask(v, 0x1FFF), 13) == 0 by {
      ShrAdd(Mask(v, 0x1FFF), 12, 1);
      Shr12(Mask(v, 0x1FFF));
      Shr1(Right12(Mask(v, 0x1FFF)));
    }
    ValueMasked(v, 0x1FFF, 13);
  }

  lemma LowShifted(v: Word)
    ensures Half(Right12(Mask(v, 0x1FFF))) == 0 && Low(v) == Mask(v, 0x1FFF) && Small(Low(v))
  {
  }

  lemma Shr1(w: Word)
    ensures Shr(w, 1) == Half(w)
  {
    hide Half;
    assert Shr(Half(w), 0) == Half(w);
  }

  lemma ValuePlus(v: Word, k: Word)
    ensures Value(Low(Plus(v, k))) == (Value(v) + Value(k)) % 0x2000
  {
    LowSum(v, k);
    ValueLow(v);
    ValueLow(k);
    hide Value, Low, Small, Plus, Num;
    LowValues(Low(v), Low(k));
    ModBoth(Value(v), Value(k));
  }

  lemma LowSum(v: Word, k: Word)
    ensures Low(Plus(v, k)) == Low(Plus(Low(v), Low(k)))
  {
  }

  lemma LowValues(a: Word, b: Word)
    requires Small(a) && Small(b)
    ensures Value(Low(Plus(a, b))) == (Value(a) + Value(b)) % 0x2000
  {
    hide *;
    PlusAdd(a, b);
    ValueLow(Plus(a, b));
    NumSum13(a, b);
    ValueLow(a);
    ValueLow(b);
    SumLow(Num(a, 13), Num(b, 13), Value(a), Value(b));
  }

  lemma PlusAdd(a: Word, b: Word)
    ensures Plus(a, b) == Add(a, b, 0)
  {
  }

  lemma SumLow(x: nat, y: nat, a: nat, b: nat)
    requires x == a % 0x2000 && y == b % 0x2000
    ensures (x + y) % 0x2000 == (a + b) % 0x2000
  {
    ModBoth(a, b);
  }

  lemma NumSum13(a: Word, b: Word)
    requires Small(a) && Small(b)
    ensures Num(Add(a, b, 0), 13) == (Num(a, 13) + Num(b, 13)) % 0x2000
  {
    hide Num, Add, Small, Bit, Pow2;
    NumSum(a, b, 0, 13);
    ZeroBits();
    Power13();
  }

  lemma Power13()
    ensures Pow2(13) == 0x2000
  {
  }

  lemma ModBoth(a: nat, b: nat)
    ensures (a % 0x2000 + b % 0x2000) % 0x2000 == (a + b) % 0x2000
  {
  }

  lemma ValueMinus(v: Word, k: Word)
    ensures Value(Low(Minus(v, k))) == (Value(v) - Value(k)) % 0x2000
  {
    var d := Minus(v, k);
    MinusPlus(v, k);
    hide Value, Low, Plus, Minus, Num, Small;
    ValuePlus(d, k);
    ValueLow(v);
    ValueLow(d);
    ModBack(Value(d), Value(k), Value(v));
  }

  lemma MinusPlus(v: Word, k: Word)
    ensures Plus(Minus(v, k), k) == v
  {
    assert Plus(v - k, k) == v;
  }

  lemma ModBack(a: nat, b: nat, c: nat)
    requires (a + b) % 0x2000 == c % 0x2000
    ensures a % 0x2000 == (c - b) % 0x2000
  {
  }

  // ---------------------------------------------------------------------------------------------
  // Fields.

  /** Shifting right and back clears the low j bits. */
  lemma ValueRound(w: Word, j: nat)
    requires j <= 64
    ensures Value(Shl(Shr(w, j), j)) == Value(w) / Pow2(j) * Pow2(j)
  {
    hide Num, Shl, Shr, Pow2;
    NumShl(Shr(w, j), j, 64 - j);
    NumShr(w, j, 64 - j);
  }

  lemma ValueRight36(w: Word)
    ensures Value(Down36(w)) == Value(w) / 0x10_0000_0000
  {
    Right36(w);
    Power36();
    hide Num, Shr, Right12, Right4, Pow2, Down36;
    Shr36(w);
    NumShr(w, 36, 28);
    ShrAdd(Shr(w, 36), 24, 4);
    ShrAdd(Shr(w, 36), 12, 12);
    Shr12(Shr(w, 36));
    Shr12(Right12(Shr(w, 36)));
    Shr4(Right12(Right12(Shr(w, 36))));
    NumAbove(Shr(w, 36), 28, 36);
  }

  lemma Right36(w: Word)
    ensures Right12(Right12(Right12(w))) == Down36(w)
    ensures Right4(Right12(Right12(Right12(Right12(Right12(w)))))) == 0
  {
  }

  lemma ValueLeft36(w: Word)
    ensures Value(Up36(w)) == Value(w) % 0x1000_0000 * 0x10_0000_0000
  {
    Left36(w);
    Power36();
    hide Num, Shl, Left12, Pow2, Up36;
    Shl36(w);
    NumShl(w, 36, 28);
    NumLow(w, 28, 64);
  }

  lemma Left36(w: Word)
    ensures Left12(Left12(Left12(w))) == Up36(w)
  {
  }

  lemma Power36()
    ensures Pow2(36) == 0x10_0000_0000 && Pow2(28) == 0x1000_0000
  {
    Powers();
    assert Pow2(4) == 16;
    hide Pow2;
    PowAdd(12, 12);
    PowAdd(24, 12);
    PowAdd(24, 4);
  }

  /** Bits 47-12 of a word. */
  lemma ValueField48(w: Word)
    ensures Value(Bits47To12(w)) == Value(w) % 0x1_0000_0000_0000 / 0x1000 * 0x1000
  {
    Field48(w);
    Powers();
    var y := Mask(w, 0xFFFF_FFFF_FFFF);
    hide Num, Shl, Shr, Mask, Left12, Right12, Pow2, Ones, Bits47To12;
    Ones48();
    Shr36(y);
    ValueMasked(w, 0xFFFF_FFFF_FFFF, 48);
    ValueRound(y, 12);
    Shr12(y);
    Shl12(Right12(y));
  }

  lemma Field48(w: Word)
    ensures var y := Mask(w, 0xFFFF_FFFF_FFFF);
      Left12(Right12(y)) == Bits47To12(w) && Right12(Right12(Right12(Right12(y)))) == 0
  {
  }

  /** Bits 51-16 of a word. */
  lemma ValueField52(w: Word)
    ensures Value(Bits51To16(w)) == Value(w) % 0x10_0000_0000_0000 / 0x1_0000 * 0x1_0000
  {
    Field52(w);
    Powers();
    var y := Mask(w, 0xF_FFFF_FFFF_FFFF);
    hide Num, Shl, Shr, Mask, Left12, Right12, Left4, Right4, Pow2, Ones, Bits51To16;
    Ones52();
    Shr36(y);
    ShrAdd(y, 48, 4);
    Shr4(Right12(Right12(Right12(Right12(y)))));
    ValueMasked(w, 0xF_FFFF_FFFF_FFFF, 52);
    ValueRound(y, 16);
    ShrAdd(y, 12, 4);
    Shr12(y);
    Shr4(Right12(y));
    ShlAdd(Right4(Right12(y)), 12, 4);
    Shl12(Right4(Right12(y)));
    Shl4(Left12(Right4(Right12(y))));
  }

  lemma Field52(w: Word)
    ensures var y := Mask(w, 0xF_FFFF_FFFF_FFFF);
      && Left4(Left12(Right4(Right12(y)))) == Bits51To16(w)
      && Right4(Right12(Right12(Right12(Right12(y))))) == 0
  {
  }
}
