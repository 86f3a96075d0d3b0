/** arm_lpae_pgsize: the biggest supported page size that fits and is aligned. Sizes are powers of two, given by
    exponent. */
module LpaeSize {
  import opened Arith

  function Pow2(e: nat): (p: nat)
    ensures p > 0
  {
    if e == 0 then 1 else 2 * Pow2(e - 1)
  }

  predicate Divides(e: nat, x: nat) { x % Pow2(e) == 0 }

  /** __fls: the highest bit set. */
  function Fls(x: nat): (e: nat)
    requires x > 0
    ensures Pow2(e) <= x < Pow2(e + 1)
  {
    if x == 1 then 0 else Fls(x / 2) + 1
  }

  /** __ffs: the lowest bit set. */
  function Ffs(x: nat): nat
    requires x > 0
  {
    if x % 2 == 1 then 0 else Ffs(x / 2) + 1
  }

  lemma {:induction false} PowGrows(a: nat, b: nat)
    requires a < b
    ensures Pow2(a) < Pow2(b)
    decreases b
  {
    if a < b - 1 { PowGrows(a, b - 1); }
  }

  lemma {:induction false} DividesHalf(e: nat, x: nat)
    requires e > 0
    ensures Divides(e, x) <==> x % 2 == 0 && Divides(e - 1, x / 2)
  {
    var p := Pow2(e - 1);
    assert Pow2(e) == 2 * p;
    DivTimes(x, 2 * p);
    if Divides(e, x) {
      var q := x / (2 * p);
      Regroup(q, 2, p);
      assert q * 2 * p == q * p * 2;
      DivUnique(x, 2, q * p);
      DivUnique(x / 2, p, q);
    }
    if x % 2 == 0 && Divides(e - 1, x / 2) {
      var q := x / 2 / p;
      DivTimes(x / 2, p);
      assert x == 2 * (x / 2) == q * p * 2;
      assert q * p * 2 == q * (2 * p);
      DivUnique(x, 2 * p, q);
    }
  }

  /** The lowest bit set says exactly which powers of two divide. */
  lemma {:induction false} FfsDivides(x: nat, e: nat)
    requires x > 0
    ensures Divides(e, x) <==> e <= Ffs(x)
    decreases e
  {
    if e > 0 {
      DividesHalf(e, x);
      if x % 2 == 0 { FfsDivides(x / 2, e - 1); }
    }
  }

  /** The lowest bit set in a | b. */
  function FfsOr(a: nat, b: nat): nat
    requires a > 0 || b > 0
  {
    if a == 0 then Ffs(b) else if b == 0 then Ffs(a) else if Ffs(a) <= Ffs(b) then Ffs(a) else Ffs(b)
  }

  lemma OrDivides(a: nat, b: nat, e: nat)
    requires a > 0 || b > 0
    ensures Divides(e, a) && Divides(e, b) <==> e <= FfsOr(a, b)
  {
    if a > 0 { FfsDivides(a, e); }
    if b > 0 { FfsDivides(b, e); }
  }

  /** The biggest supported exponent up to idx. */
  function Highest(exps: set<nat>, idx: nat): (e: nat)
    requires exists m: nat :: m in exps && m <= idx
    ensures e in exps && e <= idx && forall m: nat :: m in exps && m <= idx ==> m <= e
  {
    if idx in exps then idx else Highest(exps, idx - 1)
  }

  /** A page size that is supported, fits and is aligned. */
  predicate Usable(exps: set<nat>, iova: nat, paddr: nat, size: nat, e: nat) {
    e in exps && Pow2(e) <= size && Divides(e, iova) && Divides(e, paddr)
  }

  lemma UsableUpTo(exps: set<nat>, iova: nat, paddr: nat, size: nat, m: nat)
    requires size > 0
    ensures Usable(exps, iova, paddr, size, m) <==>
      m in exps && m <= Fls(size) && (iova > 0 || paddr > 0 ==> m <= FfsOr(iova, paddr))
  {
    hide Divides, Fls, FfsOr;
    AtLeast(m, Fls(size));
    AtLeast(Fls(size) + 1, m);
    if iova > 0 || paddr > 0 { OrDivides(iova, paddr, m); } else { ZeroDivides(m); }
  }

  lemma ZeroDivides(e: nat)
    ensures Divides(e, 0)
  {
  }

  /** The bit tricks find the biggest usable page size. */
  method PgShift(exps: set<nat>, iova: nat, paddr: nat, size: nat, ghost least: nat) returns (e: nat)
    requires size > 0 && Usable(exps, iova, paddr, size, least)
    ensures Usable(exps, iova, paddr, size, e)
    ensures forall m: nat :: Usable(exps, iova, paddr, size, m) ==> m <= e
  {
    hide Usable, Fls, FfsOr;
    var idx := Fls(size);
    if iova > 0 || paddr > 0 {
      var align := FfsOr(iova, paddr);
      if align < idx { idx := align; }
    }
    forall m: nat ensures Usable(exps, iova, paddr, size, m) <==> m in exps && m <= idx {
      UsableUpTo(exps, iova, paddr, size, m);
    }
    assert least in exps && least <= idx;
    e := Highest(exps, idx);
  }

  lemma AtLeast(a: nat, b: nat)
    ensures a <= b ==> Pow2(a) <= Pow2(b)
  {
    if a < b { PowGrows(a, b); }
  }
}
