/** Quotients and remainders by a divisor that need not be a literal. */
module Division {

  function DivMod(n: nat, d: nat): (r: (nat, nat))
    requires d > 0
    ensures r.1 < d && n == r.0 * d + r.1
  {
    (n / d, n % d)
  }

  lemma MulGrows(k: nat, d: nat)
    requires k >= 1
    ensures k * d >= d
  {
    assert k * d == (k - 1) * d + d;
  }

  /** Quotient and remainder are determined by the number. */
  lemma DivModUnique(q: nat, r: nat, d: nat)
    requires r < d
    ensures DivMod(q * d + r, d) == (q, r)
  {
    hide DivMod;
    var (q', r') := DivMod(q * d + r, d);
    assert (q - q') * d == q * d - q' * d && (q' - q) * d == q' * d - q * d;
    if q > q' {
      MulGrows(q - q', d);
    } else if q < q' {
      MulGrows(q' - q, d);
    }
  }

  /** A quotient is below a bound exactly if the number is below its multiple. */
  lemma QuotientBound(q: nat, r: nat, d: nat, bound: nat)
    requires r < d
    ensures q < bound <==> q * d + r < bound * d
  {
    assert (bound - q) * d == bound * d - q * d && (q - bound) * d == q * d - bound * d;
    if q < bound {
      MulGrows(bound - q, d);
    } else if q > bound {
      MulGrows(q - bound, d);
    }
  }

  lemma Associate(a: nat, b: nat, c: nat)
    ensures a * (b * c) == (a * b) * c
  {
  }

  /** Counting up by one moves the quotient exactly at multiples of the divisor. */
  lemma NextQuotient(y: nat, d: nat)
    requires y >= 1 && d > 1
    ensures y / d == (y - 1) / d + if y % d == 0 then 1 else 0
  {
    hide DivMod;
    var (q, r) := DivMod(y - 1, d);
    DivModIs(y, d);
    DivModIs(y - 1, d);
    if r == d - 1 {
      assert y == (q + 1) * d + 0;
      DivModUnique(q + 1, 0, d);
    } else {
      DivModUnique(q, r + 1, d);
    }
  }

  lemma DivModIs(n: nat, d: nat)
    requires d > 0
    ensures DivMod(n, d) == (n / d, n % d)
  {
  }

  /** A multiple of a multiple is a multiple. */
  lemma MultipleOf(y: nat, d: nat, k: nat)
    requires d > 0 && k > 0 && d * k > 0 && y % (d * k) == 0
    ensures y % d == 0
  {
    hide DivMod;
    var q := y / (d * k);
    DivModIs(y, d * k);
    Associate(q, k, d);
    assert y == q * k * d + 0;
    DivModIs(y, d);
    DivModUnique(q * k, 0, d);
  }
}
