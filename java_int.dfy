/**
 Java's fixed-width integer arithmetic, as far as the trigger pool helper
 relies on it: `int` and `long` ranges, two's-complement wrap-around of `+`
 and `-`, `AtomicInteger.incrementAndGet`, and `/` on `long`, which truncates
 toward zero (Dafny's `/` is Euclidean).
 */
module JavaInt {

  const TwoTo32: int := 0x1_0000_0000
  const MinInt32: int := -0x8000_0000
  const MaxInt32: int := 0x7FFF_FFFF

  const TwoTo64: int := 0x1_0000_0000_0000_0000
  const MinInt64: int := -0x8000_0000_0000_0000
  const MaxInt64: int := 0x7FFF_FFFF_FFFF_FFFF

  /** A value of Java's `int`. */
  type Int32 = x: int | MinInt32 <= x <= MaxInt32

  /** A value of Java's `long`. */
  type Int64 = x: int | MinInt64 <= x <= MaxInt64

  /** The `int` that two's-complement arithmetic yields for the exact value `n`. */
  function Wrap32(n: int): (r: Int32)
    ensures (r - n) % TwoTo32 == 0
    ensures MinInt32 <= n <= MaxInt32 ==> r == n
  {
    (n - MinInt32) % TwoTo32 + MinInt32
  }

  /** The `long` that two's-complement arithmetic yields for the exact value `n`. */
  function Wrap64(n: int): (r: Int64)
    ensures (r - n) % TwoTo64 == 0
    ensures MinInt64 <= n <= MaxInt64 ==> r == n
  {
    (n - MinInt64) % TwoTo64 + MinInt64
  }

  /** `AtomicInteger.incrementAndGet`: adds one, wrapping from the largest `int` to the smallest. */
  function Inc32(c: Int32): (r: Int32)
    ensures r == Wrap32(c + 1)
    ensures c < MaxInt32 ==> r == c + 1
  {
    if c == MaxInt32 then MinInt32 else c + 1
  }

  /** Java's `a - b` on two `long` values. */
  function Sub64(a: Int64, b: Int64): (r: Int64)
    ensures (r - (a - b)) % TwoTo64 == 0
    ensures MinInt64 <= a - b <= MaxInt64 ==> r == a - b
  {
    Wrap64(a - b)
  }

  /** Java's `a / b` on `long` with a positive divisor: the quotient truncated toward zero. */
  function JavaDiv(a: Int64, b: int): (q: Int64)
    requires 0 < b <= MaxInt64
    ensures 0 <= a ==> 0 <= q && 0 <= a - q * b < b
    ensures a < 0 ==> q <= 0 && -b < a - q * b <= 0
  {
    if 0 <= a then
      DivBound(a, b);
      a / b
    else
      var n: int := -(a as int);
      DivBound(n, b);
      var q := n / b;
      assert (-q) * b == -(q * b);
      -q
  }

  lemma DivBound(a: int, b: int)
    requires 0 <= a && 0 < b
    ensures 0 <= a / b <= a
    ensures 0 <= a - (a / b) * b < b
  {
    var q := a / b;
    assert a == q * b + a % b;
    assert 0 <= a % b < b;
    assert q * b == q * (b - 1) + q;
    MulNonneg(q, b - 1);
  }

  lemma MulNonneg(x: int, y: int)
    requires 0 <= x && 0 <= y
    ensures 0 <= x * y
  {
  }

  /** Repeated increments from a wrapped value agree with wrapping the exact sum. */
  lemma Inc32OfWrap32(n: int)
    ensures Inc32(Wrap32(n)) == Wrap32(n + 1)
  {
  }
}
