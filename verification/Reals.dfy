/** Products and quotients of reals by name, so that a proof rewrites one of them at a time. */
module Reals {
  function Times(a: real, b: real): real { a * b }

  function Over(a: real, b: real): real
    requires b != 0.0
  {
    a / b
  }

  lemma Cancel(x: real, y: real)
    requires y != 0.0
    ensures Over(x, y) * y == x
  {}

  lemma Quotient(x: real, y: real, q: real)
    requires y != 0.0 && q * y == x
    ensures q == Over(x, y)
  {}

  lemma MulAssoc(a: real, b: real, c: real)
    ensures (a * b) * c == a * (b * c)
  {}

  lemma TimesAssoc(a: real, b: real, c: real)
    ensures Times(Times(a, b), c) == Times(a, Times(b, c))
  {
    MulAssoc(a, b, c);
  }

  lemma TimesCommutes(a: real, b: real)
    ensures Times(a, b) == Times(b, a)
  {}

  lemma TimesPositive(a: real, b: real)
    requires a > 0.0 && b > 0.0
    ensures Times(a, b) > 0.0
  {}

  lemma TimesStrict(a: real, b: real, b': real)
    requires a > 0.0 && b < b'
    ensures Times(a, b) < Times(a, b')
  {
    assert a * (b' - b) > 0.0;
  }

  lemma OverAdd(x: real, z: real, y: real)
    requires y != 0.0
    ensures Over(x, y) + Over(z, y) == Over(x + z, y)
  {}

  lemma OverOver(x: real, y: real, z: real, yz: real)
    requires y != 0.0 && z != 0.0 && yz == y * z
    ensures yz != 0.0
    ensures Over(Over(x, y), z) == Over(x, yz)
  {
    var p := Over(x, y);
    var q := Over(p, z);
    Cancel(x, y);
    Cancel(p, z);
    MulAssoc(q, z, y);
    Quotient(x, yz, q);
  }

  lemma SmallerNumerator(x: real, x': real, y: real)
    requires x < x' && y > 0.0
    ensures Over(x, y) < Over(x', y)
  {
    Cancel(x, y);
    Cancel(x', y);
  }

  lemma SmallerDenominator(x: real, y: real, y': real)
    requires x > 0.0 && 0.0 < y' < y
    ensures Over(x, y) < Over(x, y')
  {
    Cancel(x, y);
    Cancel(x, y');
    FactorOrder(Over(x, y), Over(x, y'), y, y', x);
  }

  lemma FactorOrder(q: real, q': real, y: real, y': real, x: real)
    requires q * y == x == q' * y' && x > 0.0 && 0.0 < y' < y
    ensures q < q'
  {
    assert q > 0.0;
    assert q * (y - y') > 0.0;
    assert (q' - q) * y' > 0.0;
  }

  lemma SmallerQuotient(x: real, x': real, y: real, y': real)
    requires 0.0 < x < x' && 0.0 < y' < y
    ensures Over(x, y) < Over(x', y')
  {
    SmallerDenominator(x, y, y');
    SmallerNumerator(x, x', y');
  }

  lemma OverPositive(x: real, y: real)
    requires x > 0.0 && y > 0.0
    ensures Over(x, y) > 0.0
  {
    SmallerNumerator(0.0, x, y);
    Quotient(0.0, y, 0.0);
  }

  lemma OverSelf(d: real)
    requires d != 0.0
    ensures Over(d, d) == 1.0 && Over(0.0, d) == 0.0
  {
    Quotient(d, d, 1.0);
    Quotient(0.0, d, 0.0);
  }

  lemma CommonFactor(a: real, n: real, d: real)
    requires a != 0.0 && d != 0.0
    ensures Times(a, d) != 0.0 && Over(Times(a, n), Times(a, d)) == Over(n, d)
  {
    var q := Over(n, d);
    Cancel(n, d);
    MulAssoc(q, d, a);
    assert q * Times(a, d) == Times(a, n);
    Quotient(Times(a, n), Times(a, d), q);
  }
}
