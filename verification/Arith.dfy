/** Products, quotients and remainders by a variable. */
module Arith {

  lemma Distribute(a: int, b: int, c: int)
    ensures (a + b) * c == a * c + b * c
  {
  }

  lemma Associate(a: int, b: int, c: int)
    ensures a * (b * c) == (a * b) * c
  {
  }

  /** Different multiples of c are at least c apart. */
  lemma MulApart(a: int, b: int, c: nat)
    ensures a < b ==> a * c + c <= b * c
    ensures a == b ==> a * c == b * c
    ensures b < a ==> b * c + c <= a * c
  {
    MulLess(a, b, c);
    MulLess(b, a, c);
  }

  lemma MulLess(a: int, b: int, c: nat)
    ensures a < b ==> a * c + c <= b * c
  {
    Distribute(a, b - a, c);
    Distribute(1, b - a - 1, c);
    if a < b { assert 0 <= (b - a - 1) * c; }
  }

  /** i == q * m + j with j < m is division with remainder. */
  lemma DivModUnique(i: nat, m: nat, q: nat, j: nat)
    requires m > 0 && i == q * m + j && j < m
    ensures i / m == q && i % m == j
  {
    assert i == i / m * m + i % m;
    MulApart(i / m, q, m);
  }

  /** t mod n, by taking n away as often as it goes. */
  function Wrap(t: nat, n: nat): (i: nat)
    requires 0 < n
    ensures i < n
  {
    if t < n then t else Wrap(t - n, n)
  }

  lemma {:induction false} WrapIsMod(t: nat, n: nat)
    requires 0 < n
    ensures Wrap(t, n) == t % n
    decreases t
  {
    if t < n {
      DivModUnique(t, n, 0, t);
    } else {
      WrapIsMod(t - n, n);
      var q, r := (t - n) / n, (t - n) % n;
      assert t - n == q * n + r;
      Distribute(q, 1, n);
      DivModUnique(t, n, q + 1, r);
    }
  }

  /** Positions less than n apart have different remainders by n. */
  lemma ModDistinct(a: nat, b: nat, n: nat)
    requires 0 < n && a < b < a + n
    ensures a % n != b % n
  {
    assert a == a / n * n + a % n && b == b / n * n + b % n;
    MulApart(a / n, b / n, n);
  }

  /** Equal remainders by a multiple of n are equal remainders by n. */
  lemma ModModulus(a: nat, b: nat, n: nat, m: nat)
    requires 0 < n && 0 < m && a % (m * n) == b % (m * n)
    ensures a % n == b % n
  {
    ModOfMod(a, n, m);
    ModOfMod(b, n, m);
  }

  lemma ModOfMod(a: nat, n: nat, m: nat)
    requires 0 < n && 0 < m
    ensures m * n > 0 && a % (m * n) % n == a % n
  {
    MulApart(0, m, n);
    var r, d := a % (m * n), a / (m * n);
    SplitQuotient(a, n, m, d, r, r / n, r % n);
  }

  lemma SplitQuotient(a: nat, n: nat, m: nat, d: nat, r: nat, q: nat, e: nat)
    requires 0 < n && a == d * (m * n) + r && r == q * n + e && e < n
    ensures a % n == e
  {
    Associate(d, m, n);
    Distribute(d * m, q, n);
    MulApart(0, d, m);
    DivModUnique(a, n, d * m + q, e);
  }
}
