/** Remainders, for rings. */
module RingArithmetic {

  lemma {:induction false} MulMono(a: nat, b: nat, n: nat)
    requires a <= b
    ensures a * n <= b * n
    decreases b - a
  {
    if a < b {
      MulMono(a, b - 1, n);
      assert b * n == (b - 1) * n + n;
    }
  }

  lemma Unique(p: nat, r: nat, q: nat, m: nat, n: nat)
    requires p * n + r == q * n + m && r < n && m < n
    ensures p == q && r == m
  {
    if p < q {
      MulMono(p + 1, q, n);
    } else if q < p {
      MulMono(q + 1, p, n);
    }
  }

  lemma {:induction false} MulAssoc(a: nat, b: nat, n: nat)
    ensures a * (b * n) == (a * b) * n
    decreases a
  {
    if a > 0 {
      MulAssoc(a - 1, b, n);
      assert a * (b * n) == (a - 1) * (b * n) + b * n;
      Distribute((a - 1) * b, b, n);
      assert a * b == (a - 1) * b + b;
    }
  }

  lemma {:induction false} Distribute(a: nat, b: nat, n: nat)
    ensures (a + b) * n == a * n + b * n
    decreases b
  {
    if b > 0 { Distribute(a, b - 1, n); }
  }

  lemma DivMod(x: nat, n: nat)
    requires n > 0
    ensures x == x / n * n + x % n
  {
  }

  /** Euclid's remainder is the only one. */
  lemma ModIs(x: nat, q: nat, m: nat, n: nat)
    requires n > 0 && x == q * n + m && m < n
    ensures x % n == m
  {
    DivMod(x, n);
    Unique(x / n, x % n, q, m, n);
  }

  /** The slot behind slot `k % n`. */
  lemma RingStep(k: nat, n: nat)
    requires n > 0
    ensures (k % n + 1) % n == (k + 1) % n
  {
    DivMod(k, n);
    var q, m := k / n, k % n;
    if m + 1 < n {
      ModIs(k + 1, q, m + 1, n);
      ModIs(m + 1, 0, m + 1, n);
    } else {
      assert (q + 1) * n == q * n + n;
      ModIs(k + 1, q + 1, 0, n);
      ModIs(m + 1, 1, 0, n);
    }
  }

  lemma {:induction false} RingAdd(k: nat, d: nat, n: nat)
    requires n > 0
    ensures (k % n + d) % n == (k + d) % n
    decreases d
  {
    if d > 0 {
      RingAdd(k, d - 1, n);
      RingStep(k % n + (d - 1), n);
      RingStep(k + (d - 1), n);
    } else {
      ModIs(k % n, 0, k % n, n);
    }
  }

  /** Fewer than a ring's length apart: not the same slot. */
  lemma RingApart(i: nat, j: nat, n: nat)
    requires n > 0 && i < j < i + n
    ensures i % n != j % n
  {
    DivMod(i, n);
    DivMod(j, n);
    var p, q := i / n, j / n;
    if p < q { MulMono(p + 1, q, n); } else { MulMono(q, p, n); }
  }

  /** A multiple of a ring's length does not change a position in the ring. */
  lemma ModOfMod(k: nat, m: nat, n: nat)
    requires n > 0 && m > 0 && m % n == 0
    ensures k % m % n == k % n
  {
    DivMod(k, m);
    DivMod(m, n);
    Rounds(k, k / m, m, m / n, k % m, n);
  }

  lemma Rounds(k: nat, q: nat, m: nat, p: nat, rest: nat, n: nat)
    requires n > 0 && k == q * m + rest && m == p * n
    ensures rest % n == k % n
  {
    DivMod(rest, n);
    var e, d := rest % n, rest / n;
    MulAssoc(q, p, n);
    Distribute(q * p, d, n);
    ModIs(k, q * p + d, e, n);
  }

  /** `d` further on is the same position exactly for whole rounds. */
  lemma SamePosition(k: nat, d: nat, n: nat)
    requires n > 0
    ensures (k + d) % n == k % n <==> d % n == 0
  {
    DivMod(d, n);
    DivMod(k, n);
    var q, p, m, e := k / n, d / n, k % n, d % n;
    Distribute(q, p, n);
    if m + e < n {
      ModIs(k + d, q + p, m + e, n);
    } else {
      Distribute(q + p, 1, n);
      ModIs(k + d, q + p + 1, m + e - n, n);
    }
  }
}
