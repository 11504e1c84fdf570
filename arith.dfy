/**
 * Small facts about natural and real arithmetic that the window and stride
 * computations of the downsamplers need.
 */
module NatArith {
  lemma {:induction false} MulMonotone(a: nat, b: nat, c: nat)
    requires a <= b
    ensures a * c <= b * c
    decreases b - a
  {
    if a < b {
      MulMonotone(a + 1, b, c);
      assert (a + 1) * c == a * c + c;
    }
  }

  lemma MulSucc(a: nat, d: nat)
    ensures (a + 1) * d == a * d + d
  {
  }

  /** Floor division of naturals, one divisor at a time. */
  function Div(n: nat, d: nat): (q: nat)
    requires d > 0
    ensures q * d <= n < q * d + d
    ensures q <= n && (n >= d ==> q >= 1)
    decreases n
  {
    if n < d then 0
    else
      var q := Div(n - d, d);
      assert (q + 1) * d == q * d + d;
      q + 1
  }

  /** Dafny's `/` on naturals is that floor division. */
  lemma DivIsDiv(n: nat, d: nat)
    requires d > 0
    ensures Div(n, d) == n / d
  {
    var q, q' := Div(n, d), n / d;
    assert q' * d <= n < q' * d + d;
    MulSucc(q, d);
    MulSucc(q', d);
    if q < q' {
      MulMonotone(q + 1, q', d);
    } else if q > q' {
      MulMonotone(q' + 1, q, d);
    }
  }

  lemma DivBetween(lo: real, hi: real, s: real, n: real)
    requires n > 0.0 && n * lo <= s <= n * hi
    ensures lo <= s / n <= hi
  {
  }
}
