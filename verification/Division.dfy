/** Quotient and remainder are the only ones of their kind. */
module Division {

  lemma AtLeast(a: nat, n: nat)
    requires a >= 1
    ensures a * n >= n
  {
  }

  lemma DivisionIsUnique(n: nat, q: nat, r: nat, q0: nat, r0: nat)
    requires q * n + r == q0 * n + r0 && r < n && r0 < n
    ensures q == q0 && r == r0
  {
    if q > q0 {
      assert (q - q0) * n == q * n - q0 * n;
      AtLeast(q - q0, n);
    } else if q < q0 {
      assert (q0 - q) * n == q0 * n - q * n;
      AtLeast(q0 - q, n);
    }
  }

  lemma Divides(size: nat, n: nat, q: nat, r: nat)
    requires n > 0 && size == q * n + r && r < n
    ensures size / n == q && size % n == r
  {
    DivisionIsUnique(n, q, r, size / n, size % n);
  }

  lemma OneMore(size: nat, n: nat)
    requires size >= n > 0
    ensures size / n == (size - n) / n + 1 && size % n == (size - n) % n
  {
    var q, r := (size - n) / n, (size - n) % n;
    assert (q + 1) * n == q * n + n;
    Divides(size, n, q + 1, r);
  }
}
