/** Quotients and remainders of natural numbers. */
module Division {

  lemma Distribute(a: int, b: int, s: int)
    ensures (a - b) * s == a * s - b * s
  {
  }

  lemma NotNegative(d: int, s: int)
    requires d >= 0 && s >= 0
    ensures d * s >= 0
  {
  }

  /** A positive number of rows of `s` holds at least one row. */
  lemma OneRow(d: int, s: int)
    requires d >= 1 && s >= 0
    ensures d * s >= s
  {
    NotNegative(d - 1, s);
    Distribute(d, 1, s);
  }

  lemma DivisionUnique(a: int, b: int, q: int, r: int, s: int)
    requires 0 <= r < s && 0 <= b < s && a * s + b == q * s + r
    ensures a == q && b == r
  {
    Distribute(a, q, s);
    Distribute(q, a, s);
    if a > q {
      OneRow(a - q, s);
    } else if a < q {
      OneRow(q - a, s);
    }
  }

  lemma NextRow(run: nat, s: nat)
    ensures run * s + s == (run + 1) * s
  {
  }

  lemma QuotientRemainder(k: nat, s: nat, q: nat, r: nat)
    requires r < s && k == q * s + r
    ensures k / s == q && k % s == r
  {
    DivisionUnique(k / s, k % s, q, r, s);
  }

  lemma NextQuotient(n: nat, w: nat)
    requires w > 0
    ensures if n % w + 1 == w then (n + 1) / w == n / w + 1 && (n + 1) % w == 0
            else (n + 1) / w == n / w && (n + 1) % w == n % w + 1
  {
    if n % w + 1 == w {
      NextRow(n / w, w);
      QuotientRemainder(n + 1, w, n / w + 1, 0);
    } else {
      QuotientRemainder(n + 1, w, n / w, n % w + 1);
    }
  }
}
