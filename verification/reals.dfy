/** Products and quotients of reals. Times is hidden where products are only compared and added up. */
module Reals {

  function Times(a: real, b: real): real { a * b }

  lemma TimesLess(a: real, b: real, f: real)
    requires f > 0.0
    ensures a < b <==> Times(a, f) < Times(b, f)
  {
    if a < b { Grows(a, b, f); } else if b < a { Grows(b, a, f); }
  }

  lemma Grows(a: real, b: real, f: real)
    requires f > 0.0 && a < b
    ensures a * f < b * f
  {}

  lemma TimesAdd(a: real, b: real, f: real)
    ensures Times(a + b, f) == Times(a, f) + Times(b, f)
  {}

  lemma TimesOver(x: real, f: real)
    requires f > 0.0
    ensures Times(x / f, f) == x && Times(1.0, f) == f
  {}

  lemma TimesNat(a: nat, b: nat)
    ensures (a * b) as real == Times(a as real, b as real)
  {}

  lemma TimesGroup(x: real, n: real, m: real)
    requires n > 0.0
    ensures Times(x / n, Times(n, m)) == Times(x, m)
  {
    var q := x / n;
    assert q * n == x;
    assert q * (n * m) == q * n * m;
  }

  /** A quotient compares with a bound as the dividend with the bound's multiple. */
  lemma QuotientCompares(x: real, f: real, bound: real)
    requires f > 0.0
    ensures x / f < bound <==> x < Times(bound, f)
    ensures bound < x / f <==> Times(bound, f) < x
  {
    hide Times;
    TimesOver(x, f);
    TimesLess(x / f, bound, f);
    TimesLess(bound, x / f, f);
  }
}
