/** Optional values: a lookup that may miss, or a number parse that may give NaN. */
module Wrappers {
  datatype Option<+T> = None | Some(value: T)
}

/** Integer helpers: the `Math.min`, `Math.max` and `Math.ceil(a / b)` the engine uses. */
module Arith {

  function Min(a: int, b: int): (r: int)
    ensures r <= a && r <= b
    ensures r == a || r == b
  {
    if a <= b then a else b
  }

  function Max(a: int, b: int): (r: int)
    ensures r >= a && r >= b
    ensures r == a || r == b
  {
    if a >= b then a else b
  }

  /** `Math.ceil(a / b)` on naturals: the fewest batches of size `b` that cover `a`. */
  function CeilDiv(a: nat, b: nat): (r: nat)
    requires b > 0
    ensures r * b >= a
    ensures r == 0 || (r - 1) * b < a
  {
    var t := a + b - 1;
    assert t == (t / b) * b + t % b;
    t / b
  }

  lemma MulMono(x: nat, y: nat, b: nat)
    requires x <= y
    ensures x * b <= y * b
  {
  }

  /** Any batch count that covers `a` is at least the ceiling. */
  lemma {:induction false} CeilDivLeast(a: nat, b: nat, k: nat)
    requires b > 0
    requires k * b >= a
    ensures CeilDiv(a, b) <= k
  {
    var c := CeilDiv(a, b);
    if c > k {
      MulMono(k, c - 1, b);
    }
  }

  /** A larger batch size never needs more batches. */
  lemma {:induction false} CeilDivAntitone(a: nat, small: nat, big: nat)
    requires 0 < small <= big
    ensures CeilDiv(a, big) <= CeilDiv(a, small)
  {
    var c := CeilDiv(a, small);
    MulMono(small, big, c);
    CeilDivLeast(a, big, c);
  }
}
