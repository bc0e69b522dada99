/** Shared vocabulary: results of operations that may raise, and optional values. */
module Results {

  datatype Option<+T> = None | Some(value: T)

  datatype Result<+T, +E> = Ok(value: T) | Err(error: E)
}

/** The few facts about products, quotients and remainders that the layouts need. */
module Arith {

  lemma DivMod(q: int, d: int, r: int)
    requires 0 <= r < d
    ensures (q * d + r) / d == q
    ensures (q * d + r) % d == r
  {
    var n := q * d + r;
    var k := n / d - q;
    assert n == d * (n / d) + n % d;
    assert k * d == r - n % d by {
      assert k * d == (n / d) * d - q * d;
    }
    if k > 0 {
      MulMono(1, k, d);
      assert false;
    }
    if k < 0 {
      MulMono(k, -1, d);
      assert false;
    }
  }

  lemma MulMono(a: int, b: int, c: int)
    requires a <= b && 0 <= c
    ensures a * c <= b * c
  {
    MulNonNeg(b - a, c);
    assert (b - a) * c == b * c - a * c;
  }

  lemma MulNonNeg(a: int, b: int)
    requires 0 <= a && 0 <= b
    ensures 0 <= a * b
  {
  }

  lemma PositiveFactors(a: int, b: int)
    requires 0 <= a && 0 <= b && 0 < a * b
    ensures 0 < a && 0 < b
  {
  }

  lemma MulSwap(a: int, b: int, c: int)
    ensures a * b * c == b * (a * c)
  {
  }

  lemma MulAssoc(a: int, b: int, c: int)
    ensures a * b * c == a * (b * c)
  {
  }

  lemma QuotientBelow(i: int, n: int, d: int)
    requires 0 < d
    ensures i / d < n <==> i < n * d
    ensures i % d == i - i / d * d
  {
    var q := i / d;
    assert i == q * d + i % d;
    if q < n {
      MulMono(q + 1, n, d);
      assert (q + 1) * d == q * d + d;
    } else {
      MulMono(n, q, d);
    }
  }

  /** A product as a natural number. */
  function Times(a: nat, b: nat): nat {
    MulNonNeg(a, b);
    a * b
  }

  function CeilDiv(n: nat, block: nat): nat
    requires 0 < block
  {
    (n + block - 1) / block
  }

  /** The mixed-radix reading of a number: block `q`, position `r` inside it. */
  lemma BlockBound(q: int, n: int, d: int, r: int)
    requires 0 <= q < n && 0 <= r < d
    ensures 0 <= q * d + r < n * d
  {
    MulNonNeg(q, d);
    MulMono(q + 1, n, d);
    assert (q + 1) * d == q * d + d;
  }

  lemma BlockSplit(i: int, n: int, d: int)
    requires 0 <= i < n * d && 0 < d
    ensures 0 <= i / d < n && 0 <= i % d < d && i == (i / d) * d + i % d
  {
    if i / d >= n {
      MulMono(n, i / d, d);
      assert false;
    }
  }
}

/** Python's `range` and `list` helpers on sequences of integers. */
module Ranges {
  import opened Arith

  /** `list(range(lo, hi))` */
  function Range(lo: int, hi: int): (r: seq<int>)
    ensures |r| == if lo <= hi then hi - lo else 0
    ensures forall k :: 0 <= k < |r| ==> r[k] == lo + k
  {
    if lo < hi then seq(hi - lo, k requires 0 <= k < hi - lo => lo + k) else []
  }

  lemma InRange(lo: int, hi: int)
    ensures forall e :: e in Range(lo, hi) <==> lo <= e < hi
  {
    forall e | lo <= e < hi
      ensures e in Range(lo, hi)
    {
      assert Range(lo, hi)[e - lo] == e;
    }
  }

  /** `list(range(lo, hi, step))` for a positive step. */
  function RangeStep(lo: int, hi: int, step: int): (r: seq<int>)
    requires 0 < step
    ensures forall k :: 0 <= k < |r| ==> r[k] == lo + k * step
  {
    if lo < hi then
      var n := (hi - lo + step - 1) / step;
      seq(n, k requires 0 <= k < n => lo + k * step)
    else []
  }

  /** A stepped range whose span is `n` steps, up to a remainder smaller than one step, has `n` elements. */
  lemma RangeStepCount(lo: int, hi: int, step: int, n: nat, slack: int)
    requires 0 < step && 0 <= slack < step
    requires hi - lo == n * step - slack
    ensures |RangeStep(lo, hi, step)| == n
  {
    if n > 0 {
      MulMono(1, n, step);
      DivMod(n, step, step - 1 - slack);
      assert hi - lo + step - 1 == n * step + (step - 1 - slack);
    } else {
      assert n * step == 0;
    }
  }
}
