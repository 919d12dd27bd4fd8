/** Quotients and remainders are unique, whatever computes them. */
module Quotients {
  lemma {:induction false} ProductGap(q: nat, p: nat, m: nat)
    requires q < p
    ensures q * m + m <= p * m
  {
    if q + 1 < p {
      ProductGap(q, p - 1, m);
    }
  }

  lemma {:induction false} QuotientUnique(n: nat, m: nat, q: nat, r: nat)
    requires m > 0 && n == q * m + r && r < m
    ensures n / m == q
  {
    var p := n / m;
    assert n == p * m + n % m;
    if q < p {
      ProductGap(q, p, m);
    } else if p < q {
      ProductGap(p, q, m);
    }
  }

  lemma {:induction false} RemainderUnique(n: nat, m: nat, q: nat, r: nat)
    requires m > 0 && n == q * m + r && r < m
    ensures n % m == r
  {
    var p := n / m;
    if q < p {
      ProductGap(q, p, m);
    } else if p < q {
      ProductGap(p, q, m);
    }
  }

  lemma {:induction false} Division(n: nat, a: nat)
    requires a > 0
    ensures n == a * (n / a) + n % a && n % a < a
  {
  }

  lemma {:induction false} Regroup(a: nat, m: nat, s: nat, q: nat, r: nat)
    ensures a * (m * q + r) + s == q * (a * m) + (a * r + s)
  {
    assert a * (m * q + r) == a * (m * q) + a * r;
    assert a * (m * q) == q * (a * m);
  }

  lemma {:induction false} RestFits(a: nat, m: nat, s: nat, r: nat)
    requires s < a && r < m
    ensures a * r + s < a * m
  {
    ProductGap(r, m, a);
    assert r * a == a * r && m * a == a * m;
  }

  lemma {:induction false} NestedParts(a: nat, m: nat, s: nat, q: nat, r: nat)
    requires s < a && r < m
    ensures a * m > 0 && (a * (m * q + r) + s) / (a * m) == q
  {
    Regroup(a, m, s, q, r);
    RestFits(a, m, s, r);
    QuotientUnique(a * (m * q + r) + s, a * m, q, a * r + s);
  }

  /** Dividing twice is dividing by the product. */
  lemma {:induction false} NestedQuotient(n: nat, a: nat, m: nat)
    requires a > 0 && m > 0
    ensures a * m > 0 && n / a / m == n / (a * m)
  {
    Division(n, a);
    Division(n / a, m);
    NestedParts(a, m, n % a, n / a / m, n / a % m);
  }
}
