/** Shared vocabulary of the playback engine model. */
module Common {

  /** One audio value. The engine stores f32 values; the model uses exact reals, so
      rounding of f32 arithmetic is not modelled. */
  type Sample = real

  /** Rust's `Option`: `None` marks the end of a stream. */
  datatype Option<+T> = None | Some(value: T)

  /** Euclidean division by a positive divisor has a unique quotient and remainder. */
  lemma DivModUnique(a: int, n: int, q: int, r: int)
    requires 0 < n && 0 <= r < n && a == n * q + r
    ensures a / n == q && a % n == r
  {
    var q', r' := a / n, a % n;
    assert a == n * q' + r';
    if q' < q {
      MulMonotone(1, q - q', n);
    } else if q < q' {
      MulMonotone(1, q' - q, n);
    }
  }

  /** Multiplying by the same natural number keeps the order. */
  lemma MulMonotone(a: nat, b: nat, c: nat)
    requires a <= b
    ensures a * c <= b * c
  {
  }

  /** Counting one further: the remainder either wraps to 0 (the quotient grows by one)
      or grows by one (the quotient stays). */
  lemma DivModNext(k: nat, n: nat)
    requires 1 <= n
    ensures k % n + 1 == n ==> (k + 1) % n == 0 && (k + 1) / n == k / n + 1
    ensures k % n + 1 != n ==> (k + 1) % n == k % n + 1 && (k + 1) / n == k / n
  {
    var q, r := k / n, k % n;
    assert k == n * q + r;
    if r + 1 == n {
      DivModUnique(k + 1, n, q + 1, 0);
    } else {
      DivModUnique(k + 1, n, q, r + 1);
    }
  }
}
