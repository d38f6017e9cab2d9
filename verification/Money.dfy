/** Exact nano-USD arithmetic (money/money.go). Amounts are int64 in the program,
    so every operation says what happens at the 64-bit edge; the intermediate
    products are big integers there and plain `int` here. */
module Money {

  const MAX_INT64: int := 0x7FFF_FFFF_FFFF_FFFF
  const MIN_INT64: int := -0x8000_0000_0000_0000
  const PER_MILLION: int := 1_000_000

  datatype Error = Negative | Overflow | Invalid | Misconfigured

  datatype Result<+T> = Ok(value: T) | Err(error: Error)

  predicate IsInt64(n: int) {
    MIN_INT64 <= n <= MAX_INT64
  }

  type Int64 = n: int | MIN_INT64 <= n <= MAX_INT64

  /** Two's-complement wrap-around of one int64 addition or subtraction. */
  function Wrap64(n: int): (r: Int64)
    requires MIN_INT64 + MIN_INT64 <= n <= MAX_INT64 - MIN_INT64
    ensures (r - n) % 0x1_0000_0000_0000_0000 == 0
  {
    if n > MAX_INT64 then n - 0x1_0000_0000_0000_0000
    else if n < MIN_INT64 then n + 0x1_0000_0000_0000_0000
    else n
  }

  function Min(left: int, right: int): int {
    if left < right then left else right
  }

  function Max(left: int, right: int): int {
    if left > right then left else right
  }

  function Add(left: int, right: int): (r: Result<int>)
    requires IsInt64(left) && IsInt64(right)
    ensures r == if IsInt64(left + right) then Ok(left + right) else Err(Overflow)
  {
    if right > 0 && left > MAX_INT64 - right then Err(Overflow)
    else if right < 0 && left < MIN_INT64 - right then Err(Overflow)
    else Ok(left + right)
  }

  /** Subtraction refuses MinInt64 on the right even where the difference fits. */
  function Sub(left: int, right: int): (r: Result<int>)
    requires IsInt64(left) && IsInt64(right)
    ensures r.Ok? ==> r.value == left - right
    ensures r.Ok? <==> IsInt64(left - right) && right != MIN_INT64
  {
    if right == MIN_INT64 then Err(Overflow) else Add(left, -right)
  }

  /** The quotient rounded up: the one rounding point of every price. */
  function CeilDiv(n: int, d: int): (q: int)
    requires 0 <= n && 0 < d
    ensures 0 <= q
  {
    if n % d != 0 then n / d + 1 else n / d
  }

  /** CeilDiv is the least integer whose d-fold reaches n. All pricing bounds rest on this. */
  lemma CeilDivIsLeast(n: int, d: int, q: int)
    requires 0 <= n && 0 < d
    ensures CeilDiv(n, d) <= q <==> n <= q * d
  {
    var k, m := n / d, n % d;
    assert n == k * d + m;
    if q >= k + 1 {
      ProductLeft(d, k + 1, q);
    } else if q <= k - 1 {
      ProductLeft(d, q, k - 1);
    }
  }

  function CeilQuotient(numerator: int, denominator: int): (r: Result<int>)
    requires 0 <= numerator && 0 < denominator
    ensures r.Ok? ==> r.value == CeilDiv(numerator, denominator) && 0 <= r.value <= MAX_INT64
    ensures r.Err? ==> r.error == Overflow && CeilDiv(numerator, denominator) > MAX_INT64
  {
    var quotient := CeilDiv(numerator, denominator);
    if IsInt64(quotient) then Ok(quotient) else Err(Overflow)
  }

  /** The exact price of one token class in nano-USD, before the 64-bit check. */
  function ExactCost(tokens: int, rate: int, num: int, den: int): (q: int)
    requires 0 <= tokens && 0 <= rate && 0 <= num && 0 < den
    ensures 0 <= q
  {
    CeilDiv(tokens * rate * num, PER_MILLION * den)
  }

  lemma ExactCostIsLeast(tokens: int, rate: int, num: int, den: int, q: int)
    requires 0 <= tokens && 0 <= rate && 0 <= num && 0 < den
    ensures 0 <= tokens * rate * num
    ensures ExactCost(tokens, rate, num, den) <= q <==> tokens * rate * num <= q * (PER_MILLION * den)
  {
    assert 0 <= tokens * rate;
    assert 0 <= tokens * rate * num;
    CeilDivIsLeast(tokens * rate * num, PER_MILLION * den, q);
  }

  /** CostForTokensScaled answers with the least amount covering the exact rational
      price, and errs exactly on bad arguments or a result beyond int64. */
  function CostForTokensScaled(tokens: int, rate: int, num: int, den: int): (r: Result<int>)
    ensures num < 0 ==> r == Err(Negative)
    ensures num >= 0 && den <= 0 ==> r == Err(Invalid)
    ensures num >= 0 && den > 0 && (tokens < 0 || rate < 0) ==> r == Err(Negative)
    ensures num >= 0 && den > 0 && tokens >= 0 && rate >= 0 ==>
              r == if ExactCost(tokens, rate, num, den) <= MAX_INT64
                   then Ok(ExactCost(tokens, rate, num, den)) else Err(Overflow)
  {
    if num < 0 then Err(Negative)
    else if den <= 0 then Err(Invalid)
    else if tokens < 0 || rate < 0 then Err(Negative)
    else if tokens == 0 || rate == 0 || num == 0 then
      assert tokens * rate * num == 0;
      Ok(0)
    else
      assert 0 <= tokens * rate * num;
      CeilQuotient(tokens * rate * num, PER_MILLION * den)
  }

  /** The duration price: units * rate / divisor, rounded up once. */
  function MulDivCeil(units: int, rate: int, divisor: int): (r: Result<int>)
    ensures units < 0 || rate < 0 ==> r == Err(Negative)
    ensures units >= 0 && rate >= 0 && divisor <= 0 ==> r == Err(Invalid)
    ensures r.Ok? ==> units * rate <= r.value * divisor && 0 <= r.value <= MAX_INT64
    ensures r.Ok? && r.value > 0 ==> (r.value - 1) * divisor < units * rate
    ensures units >= 0 && rate >= 0 && divisor > 0 && units * rate <= MAX_INT64 * divisor ==> r.Ok?
  {
    if units < 0 || rate < 0 then Err(Negative)
    else if divisor <= 0 then Err(Invalid)
    else if units == 0 || rate == 0 then
      assert units * rate == 0;
      Ok(0)
    else
      assert 0 <= units * rate;
      var q := CeilDiv(units * rate, divisor);
      CeilDivIsLeast(units * rate, divisor, q);
      CeilDivIsLeast(units * rate, divisor, q - 1);
      CeilDivIsLeast(units * rate, divisor, MAX_INT64);
      CeilQuotient(units * rate, divisor)
  }

  /** A price is never below the exact rational price and never a whole nano-USD above it. */
  lemma CostWithinOneNano(tokens: int, rate: int, num: int, den: int)
    requires 0 <= tokens && 0 <= rate && 0 <= num && 0 < den
    ensures var c := ExactCost(tokens, rate, num, den);
            && tokens * rate * num <= c * (PER_MILLION * den)
            && (c - 1) * (PER_MILLION * den) < tokens * rate * num
  {
    var c := ExactCost(tokens, rate, num, den);
    ExactCostIsLeast(tokens, rate, num, den, c);
    ExactCostIsLeast(tokens, rate, num, den, c - 1);
  }

  lemma ProductMonotone(a: int, b: int, c: int, d: int)
    requires 0 <= a <= b && 0 <= c <= d
    ensures 0 <= a * c <= b * d
  {
    assert a * c <= b * c;
    assert b * c <= b * d;
  }

  lemma CostMonotone(tokens: int, rate: int, tokens': int, rate': int, num: int, den: int)
    requires 0 <= tokens <= tokens' && 0 <= rate <= rate' && 0 <= num && 0 < den
    ensures ExactCost(tokens, rate, num, den) <= ExactCost(tokens', rate', num, den)
  {
    ProductMonotone(tokens, tokens', rate, rate');
    ProductMonotone(tokens * rate, tokens' * rate', num, num);
    var c := ExactCost(tokens', rate', num, den);
    ExactCostIsLeast(tokens', rate', num, den, c);
    ExactCostIsLeast(tokens, rate, num, den, c);
  }

  /** Splitting a token count over two classes costs at most one nano-USD more than
      pricing the sum, and never less. */
  lemma CostNearlyAdditive(a: int, b: int, rate: int, num: int, den: int)
    requires 0 <= a && 0 <= b && 0 <= rate && 0 <= num && 0 < den
    ensures ExactCost(a + b, rate, num, den) <= ExactCost(a, rate, num, den) + ExactCost(b, rate, num, den)
    ensures ExactCost(a, rate, num, den) + ExactCost(b, rate, num, den) <= ExactCost(a + b, rate, num, den) + 1
  {
    var D := PER_MILLION * den;
    var x, y := ExactCost(a, rate, num, den), ExactCost(b, rate, num, den);
    var z := ExactCost(a + b, rate, num, den);
    CostWithinOneNano(a, rate, num, den);
    CostWithinOneNano(b, rate, num, den);
    CostWithinOneNano(a + b, rate, num, den);
    SumTimes(a, b, rate, num);
    RoundedSum(a * rate * num, b * rate * num, x, y, D);
    hide ExactCost;
    ExactCostIsLeast(a + b, rate, num, den, x + y);
    ExactCostIsLeast(a + b, rate, num, den, x + y - 2);
  }

  lemma RoundedSum(A: int, B: int, x: int, y: int, D: int)
    requires (x - 1) * D < A <= x * D && (y - 1) * D < B <= y * D
    ensures (x + y - 2) * D < A + B <= (x + y) * D
  {
    assert x * D + y * D == (x + y) * D;
    assert (x - 1) * D + (y - 1) * D == (x + y - 2) * D;
  }

  lemma SumTimes(a: int, b: int, rate: int, num: int)
    ensures (a + b) * rate * num == a * rate * num + b * rate * num
  {
    assert (a + b) * rate == a * rate + b * rate;
    assert (a * rate + b * rate) * num == a * rate * num + b * rate * num;
  }

  /** Only the ratio num/den matters: 2/1 and 4/2 price every request alike. */
  lemma CostDependsOnRatio(tokens: int, rate: int, num: int, den: int, num': int, den': int)
    requires 0 <= tokens && 0 <= rate && 0 <= num && 0 < den && 0 <= num' && 0 < den'
    requires num * den' == num' * den
    ensures CostForTokensScaled(tokens, rate, num, den) == CostForTokensScaled(tokens, rate, num', den')
  {
    CostRatioAtMost(tokens, rate, num, den, num', den');
    CostRatioAtMost(tokens, rate, num', den', num, den);
  }

  lemma CostRatioAtMost(tokens: int, rate: int, num: int, den: int, num': int, den': int)
    requires 0 <= tokens && 0 <= rate && 0 <= num && 0 < den && 0 <= num' && 0 < den'
    requires num * den' <= num' * den
    ensures ExactCost(tokens, rate, num, den) <= ExactCost(tokens, rate, num', den')
  {
    var t := tokens * rate;
    var c := ExactCost(tokens, rate, num', den');
    ExactCostIsLeast(tokens, rate, num', den', c);
    ExactCostIsLeast(tokens, rate, num, den, c);
    assert t * num' <= c * (PER_MILLION * den');
    ScaledBound(t, num, den, num', den', c * PER_MILLION);
    Regroup(c, den');
    Regroup(c, den);
  }

  lemma Regroup(c: int, den: int)
    ensures c * (PER_MILLION * den) == (c * PER_MILLION) * den
  {
  }

  lemma ScaledBound(t: int, num: int, den: int, num': int, den': int, m: int)
    requires 0 <= t && 0 < den && 0 < den' && num * den' <= num' * den
    requires t * num' <= m * den'
    ensures t * num <= m * den
  {
    calc {
      (t * num) * den';
      t * (num * den');
      <= { ProductLeft(t, num * den', num' * den); }
      t * (num' * den);
      (t * num') * den;
      <= { ProductLeft(den, t * num', m * den'); }
      (m * den') * den;
      (m * den) * den';
    }
    if t * num > m * den {
      ProductLeftStrict(den', m * den, t * num);
    }
  }

  lemma ProductLeft(k: int, a: int, b: int)
    requires 0 <= k && a <= b
    ensures k * a <= k * b
  {
  }

  lemma ProductLeftStrict(k: int, a: int, b: int)
    requires 0 < k && a < b
    ensures k * a < k * b
  {
  }
}
