/** Products and remainders that the models share. */
module Arithmetic {
  lemma RemainderIs(k: nat, n: nat, q: nat, r: nat)
    requires r < n && k == q * n + r
    ensures k % n == r
  {
    var d := k / n - q;
    assert k == k / n * n + k % n;
    assert d * n == r - k % n;
    assert d >= 1 ==> d * n >= n;
    assert d <= -1 ==> d * n + n <= 0;
  }

  // The products are parameters, which keeps them in one form.
  lemma LessTimes(a: real, b: real, c: real, ac: real, bc: real)
    requires a < b && c > 0.0 && ac == a * c && bc == b * c
    ensures ac < bc
  {
    assert (b - a) * c > 0.0;
  }

  lemma AtMostTimes(a: real, b: real, c: real)
    requires a <= b && c >= 0.0
    ensures a * c <= b * c && c * a <= c * b
  {
  }
}
