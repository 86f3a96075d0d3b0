/** Facts about products and quotients of natural numbers. */
module Arith {
  lemma MulAtLeast(a: nat, b: nat)
    requires a >= 1
    ensures a * b >= b
  {
    assert a * b == (a - 1) * b + b;
  }

  lemma MulMonotone(a: nat, b: nat, c: nat)
    requires a <= b
    ensures a * c <= b * c
  {
    assert b * c == a * c + (b - a) * c;
  }

  lemma DivUnique(a: nat, b: nat, q: nat)
    requires b > 0 && q * b <= a < q * b + b
    ensures a / b == q && a % b == a - q * b
  {
    if a / b < q {
      MulMonotone(a / b + 1, q, b);
    } else if a / b > q {
      MulMonotone(q + 1, a / b, b);
    }
  }

  lemma MulPositive(a: nat, b: nat)
    requires a > 0 && b > 0
    ensures a * b > 0
  {
  }

  lemma DivTimes(a: nat, b: nat)
    requires b > 0
    ensures a / b * b <= a < a / b * b + b && a == a / b * b + a % b
  {
  }

  lemma Distribute(a: nat, b: nat, c: nat)
    ensures (a + b) * c == a * c + b * c
  {
  }

  lemma DivDiv(x: nat, b: nat, n: nat)
    requires b > 0 && n > 0 && n * b > 0
    ensures x / (n * b) == x / b / n
  {
    var q := x / b;
    var r := q / n;
    DivTimes(x, b);
    DivTimes(q, n);
    MulMonotone(r * n, q, b);
    MulMonotone(q + 1, r * n + n, b);
    Distribute(q, 1, b);
    Distribute(r * n, n, b);
    Regroup(r, n, b);
    DivUnique(x, n * b, r);
  }

  lemma Regroup(r: nat, n: nat, b: nat)
    ensures r * n * b == r * (n * b)
  {
  }

  lemma DivBelow(x: nat, b: nat, t: nat)
    requires b > 0 && x < t * b
    ensures x / b < t
  {
    DivTimes(x, b);
    if x / b >= t { MulMonotone(t, x / b, b); }
  }

  lemma ModAdd(a: nat, b: nat, m: nat)
    requires m > 0 && a % m == 0 && b % m == 0
    ensures (a + b) % m == 0
  {
    DivTimes(a, m);
    DivTimes(b, m);
    Distribute(a / m, b / m, m);
    DivUnique(a + b, m, a / m + b / m);
  }
}
