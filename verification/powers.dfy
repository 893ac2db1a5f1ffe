/** Powers of two and the integer ceiling of log2. */
module Powers {
  function Pow2(k: nat): (r: nat)
    ensures r >= 1
  {
    if k == 0 then 1 else 2 * Pow2(k - 1)
  }

  lemma {:induction false} Pow2Exceeds(k: nat)
    ensures Pow2(k) > k
  {
    if k > 0 { Pow2Exceeds(k - 1); }
  }

  /** The least k with Pow2(k) >= n. */
  function CeilLog2(n: nat): (k: nat)
    ensures n <= Pow2(k)
    ensures k > 0 ==> Pow2(k - 1) < n
  {
    LogFrom(n, 0)
  }

  function LogFrom(n: nat, from: nat): (k: nat)
    requires from > 0 ==> Pow2(from - 1) < n
    ensures k >= from && n <= Pow2(k)
    ensures k > 0 ==> Pow2(k - 1) < n
    decreases n - from
  {
    Pow2Exceeds(from);
    if n <= Pow2(from) then from else LogFrom(n, from + 1)
  }

  lemma {:induction false} Pow2Monotone(a: nat, b: nat)
    requires a <= b
    ensures Pow2(a) <= Pow2(b)
    ensures a < b ==> 2 * Pow2(a) <= Pow2(b)
  {
    if a < b { Pow2Monotone(a, b - 1); }
  }

  /** Only one exponent brackets n. */
  lemma CeilLog2IsUnique(n: nat, k: nat)
    requires n <= Pow2(k) && (k > 0 ==> Pow2(k - 1) < n)
    ensures CeilLog2(n) == k
  {
    var c := CeilLog2(n);
    if c < k { Pow2Monotone(c, k - 1); }
    if k < c { Pow2Monotone(k, c - 1); }
  }

  /** Splitting a power at any exponent below it. */
  lemma {:induction false} Pow2Split(a: nat, b: nat)
    requires b <= a
    ensures Pow2(a) == Pow2(b) * Pow2(a - b)
  {
    if b > 0 {
      Pow2Split(a, b - 1);
      DoubleProduct(Pow2(b - 1), Pow2(a - b));
    }
  }

  lemma DoubleProduct(d: nat, i: nat)
    ensures (2 * d) * i == 2 * (d * i) == d * (2 * i)
  {
  }

  lemma DivideMultiple(d: nat, i: nat)
    requires d > 0
    ensures d * i / d == i
  {
    var q := d * i / d;
    assert d * (i - q) == d * i % d;
    if i > q { LargeProduct(d, i - q); }
    if i < q { LargeProduct(d, q - i); }
  }

  lemma LargeProduct(d: nat, n: int)
    requires n >= 1
    ensures d * n >= d
  {
  }

  lemma Pow2Quotient(a: nat, b: nat)
    requires b <= a
    ensures Pow2(a) / Pow2(b) == Pow2(a - b)
  {
    Pow2Split(a, b);
    DivideMultiple(Pow2(b), Pow2(a - b));
  }
}
