/** Two facts about products and remainders that the solver does not find alone. */
module Remainders {
  /** A product with a non-zero number is at least as large. */
  lemma AtLeastOne(n: nat, t: int)
    ensures t >= 1 ==> n * t >= n
    ensures t <= -1 ==> n * t + n <= 0
  {
    if t >= 1 {
      assert n * t == n + n * (t - 1);
    }
    if t <= -1 {
      assert n * t + n == n * (t + 1);
    }
  }

  lemma RemainderIs(a: int, n: nat, q: int, r: nat)
    requires n > 0 && a == n * q + r && r < n
    ensures a % n == r
  {
    var t := q - a / n;
    assert a == n * (a / n) + a % n;
    assert n * t == n * q - n * (a / n);
    AtLeastOne(n, t);
  }
}
