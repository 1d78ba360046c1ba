/** Facts about products, quotients and remainders that the solver does not find alone. */
module Arith {
  lemma MulOrder(i: int, j: int, a: nat)
    ensures i < j ==> i * a + a <= j * a
    ensures i <= j ==> i * a <= j * a
    ensures j <= i ==> j * a <= i * a
  {
    if i < j {
      assert (i + 1) * a <= j * a;
    }
  }

  lemma ModUnique(x: int, a: nat, q: int, r: int)
    requires a > 0 && x == q * a + r && 0 <= r < a
    ensures x % a == r && x / a == q
  {
    var q' := x / a;
    assert x == q' * a + x % a;
    MulOrder(q, q', a);
    MulOrder(q', q, a);
  }

  lemma DivLe(x: nat, d: nat, q: nat)
    requires d > 0 && x <= q * d
    ensures x / d <= q
  {
    var r := x / d;
    assert x == r * d + x % d;
    MulOrder(q, r, d);
  }
}
