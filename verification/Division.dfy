/** Quotients and remainders from the equation that determines them. */
module Division {

  lemma MultipleAtLeast(n: int, k: int)
    requires n > 0 && k >= 1
    ensures n * k >= n
  {
  }

  lemma SmallMultiple(n: int, k: int)
    requires n > 0 && -n < n * k < n
    ensures k == 0
  {
    assert n * -k == -(n * k);
    if k >= 1 {
      MultipleAtLeast(n, k);
    } else if k <= -1 {
      MultipleAtLeast(n, -k);
    }
  }

  lemma ModUnique(m: int, n: nat, r: nat, k: int)
    requires r < n && m == r + n * k
    ensures m % n == r
  {
    var q := m / n;
    assert m == n * q + m % n;
    assert n * (q - k) == n * q - n * k;
    SmallMultiple(n, q - k);
  }

  lemma QuotientUnique(m: int, n: nat, r: nat, k: int)
    requires r < n && m == r + n * k
    ensures m / n == k
  {
    var q := m / n;
    assert m == n * q + m % n;
    assert n * (q - k) == n * q - n * k;
    SmallMultiple(n, q - k);
  }
}
