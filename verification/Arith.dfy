/** Facts about division and remainder by a variable divisor. */
module Arith {

  lemma AtLeastOnce(k: nat, w: nat)
    requires k >= 1
    ensures k * w >= w
  {
    assert k * w == (k - 1) * w + w;
  }

  lemma Euclid(n: int, w: nat)
    requires w >= 1
    ensures n == (n / w) * w + n % w && 0 <= n % w < w
  {
  }

  /** Two remainders below w that differ by a multiple of w are equal. */
  lemma UniqueRemainder(w: nat, k: int, r: nat, t: nat)
    requires r < w && t < w && k * w == t - r
    ensures r == t
  {
    if k > 0 {
      AtLeastOnce(k, w);
    }
    if k < 0 {
      AtLeastOnce(-k, w);
    }
  }

  lemma ModuloShift(n: nat, w: nat)
    requires n >= w >= 1
    ensures (n - w) % w == n % w
  {
    Euclid(n, w);
    Euclid(n - w, w);
    var q, p := n / w, (n - w) / w;
    assert (q - 1 - p) * w == q * w - w - p * w;
    UniqueRemainder(w, q - 1 - p, n % w, (n - w) % w);
  }

  /** Quotient and remainder of a number written with a remainder below w. */
  lemma QuotientAndRemainder(q: nat, r: nat, w: nat)
    requires r < w
    ensures (q * w + r) / w == q && (q * w + r) % w == r
  {
    var n := q * w + r;
    Euclid(n, w);
    var p := n / w;
    assert (p - q) * w == p * w - q * w;
    UniqueRemainder(w, p - q, n % w, r);
    if p > q {
      AtLeastOnce(p - q, w);
    } else if p < q {
      AtLeastOnce(q - p, w);
    }
  }

  /** Counting up by one passes a multiple of w exactly when the new number is one. */
  lemma QuotientStep(n: nat, w: nat)
    requires w >= 1
    ensures (n + 1) / w == n / w + if (n + 1) % w == 0 then 1 else 0
  {
    Euclid(n, w);
    var q, r := n / w, n % w;
    if r + 1 == w {
      assert n + 1 == (q + 1) * w + 0;
      QuotientAndRemainder(q + 1, 0, w);
    } else {
      assert n + 1 == q * w + (r + 1);
      QuotientAndRemainder(q, r + 1, w);
    }
  }

  /** The successor in a ring of w places. */
  lemma NextInRing(i: nat, w: nat)
    requires i < w
    ensures (i + 1) % w == if i + 1 == w then 0 else i + 1
  {
    if i + 1 == w {
      QuotientAndRemainder(1, 0, w);
    } else {
      QuotientAndRemainder(0, i + 1, w);
    }
  }
}
