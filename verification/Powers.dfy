/** Powers, and division by them: what cutting the low digits off a number does. */
module Powers {

  function Pow(b: nat, k: nat): nat {
    if k == 0 then 1 else b * Pow(b, k - 1)
  }

  lemma {:induction false} PowPositive(b: nat, k: nat)
    requires 0 < b
    ensures 0 < Pow(b, k)
  {
    if 0 < k { PowPositive(b, k - 1); }
  }

  lemma {:induction false} PowAdd(b: nat, j: nat, k: nat)
    ensures Pow(b, j + k) == Pow(b, j) * Pow(b, k)
  {
    if 0 < j {
      PowAdd(b, j - 1, k);
      Associate(b, Pow(b, j - 1), Pow(b, k));
    }
  }

  /** A power of a power of two. */
  lemma {:induction false} PowOfPow(m: nat, k: nat)
    ensures Pow(2, m * k) == Pow(Pow(2, m), k)
  {
    if 0 < k {
      PowOfPow(m, k - 1);
      var rest := m * (k - 1);
      assert m * k == m + rest;
      PowAdd(2, m, rest);
    }
  }

  lemma MulAtLeast(z: int, d: int)
    requires 0 < d
    ensures 0 < z ==> d <= z * d
    ensures z < 0 ==> z * d <= -d
  {
  }

  lemma Distribute(x: int, y: int, d: int)
    ensures (x + y) * d == x * d + y * d
  {
  }

  lemma DivBounds(n: nat, d: nat)
    requires 0 < d
    ensures (n / d) * d <= n < (n / d) * d + d
  {
    assert n == d * (n / d) + n % d;
  }

  /** The quotient is the one number whose multiple is at most `n` and within one `d` of it. */
  lemma DivUnique(n: nat, d: nat, q: int)
    requires 0 < d && q * d <= n < q * d + d
    ensures n / d == q
  {
    DivBounds(n, d);
    var x := n / d;
    Distribute(x, -q, d);
    MulAtLeast(x - q, d);
  }

  lemma Associate(x: int, c: int, d: int)
    ensures x * (c * d) == (x * c) * d
  {
  }

  /** Cutting twice is cutting once. */
  lemma DivDiv(n: nat, c: nat, d: nat)
    requires 0 < c && 0 < d
    ensures 0 < c * d && n / (c * d) == (n / d) / c
  {
    var q := n / d;
    var h := q / c;
    DivBounds(n, d);
    DivBounds(q, c);
    MulAtLeast(c, d);
    Associate(h, c, d);
    MulMonotone(h * c, q, d);
    MulMonotone(q + 1, h * c + c, d);
    Distribute(q, 1, d);
    Distribute(h * c, c, d);
    DivUnique(n, c * d, h);
  }

  lemma MulMonotone(x: int, y: int, d: int)
    requires x <= y && 0 <= d
    ensures x * d <= y * d
  {
  }

  /** Adding whole multiples adds to the quotient. */
  lemma DivAddMultiple(q: nat, i: nat, d: nat)
    requires 0 < d
    ensures (q * d + i * d) / d == q + i
  {
    Distribute(q, i, d);
    DivUnique(q * d + i * d, d, q + i);
  }
}
