/** The few facts about products and quotients the geometry proofs need. */
module Arith {

  /** a * b / n, computed in 64 bits. */
  function Share(a: nat, b: nat, n: nat): nat
    requires 0 < n
  {
    a * b / n
  }

  function Clamp(x: int, lo: int, hi: int): int {
    if x < lo then lo else if x > hi then hi else x
  }

  lemma DivBounds(a: nat, n: nat)
    requires 0 < n
    ensures (a / n) * n <= a < (a / n) * n + n
  {
    assert a == (a / n) * n + a % n;
  }

  lemma MulMono(a: nat, b: nat, c: nat)
    requires a <= b
    ensures a * c <= b * c
  {
  }

  lemma MulMonoStrict(a: nat, b: nat, c: nat)
    requires a < b
    ensures a * c + c <= b * c
  {
    MulMono(a + 1, b, c);
    assert (a + 1) * c == a * c + c;
  }

  lemma DivAtLeast(a: nat, n: nat, q: nat)
    requires 0 < n && q * n <= a
    ensures q <= a / n
  {
    DivBounds(a, n);
    if a / n < q {
      MulMonoStrict(a / n, q, n);
    }
  }

  lemma DivBelow(a: nat, n: nat, q: nat)
    requires 0 < n && a < q * n
    ensures a / n < q
  {
    DivBounds(a, n);
    if q <= a / n {
      MulMono(q, a / n, n);
    }
  }

  lemma DivUnique(a: nat, n: nat, q: nat)
    requires 0 < n && q * n <= a < q * n + n
    ensures a / n == q
  {
    DivAtLeast(a, n, q);
    assert (q + 1) * n == q * n + n;
    DivBelow(a, n, q + 1);
  }

  lemma DivMono(a: nat, b: nat, n: nat)
    requires 0 < n && a <= b
    ensures a / n <= b / n
  {
    DivBounds(a, n);
    DivAtLeast(b, n, a / n);
  }
}
