/** Quotes: the price of a usage, class by class, with the receipt that derives it (QuoteAt in
    pricing/pricing.go). */
module Quotes {
  import opened Common
  import opened Money
  import opened Usage
  import opened Windows
  import opened Rules

  datatype PriceLine = PriceLine(class_: TokenClass, tokens: Int64, rate: Int64, cost: Int64)

  datatype Receipt = Receipt(
    ruleSetId: string, pricedAt: int, tierThreshold: Int64,
    windowId: string, windowCaption: string, num: Int64, den: Int64,
    accounting: PromptAccounting, lines: seq<PriceLine>, total: Int64)

  datatype Quote = Quote(ruleSetId: string, rates: Rates, usage: Usage, cost: Int64, receipt: Receipt)

  predicate Priceable(u: Usage, rates: Rates, window: Option<Window>) {
    !u.IsNegative() && rates.IsValid() && (window.Some? ==> window.value.num >= 0 && window.value.den > 0)
  }

  function Scale(window: Option<Window>, class_: TokenClass): (Int64, Int64) {
    if window.None? then (1, 1) else ScaleFor(window.value, class_)
  }

  /** The exact price of the i-th token class, rounded up once. */
  function ClassCost(u: Usage, rates: Rates, window: Option<Window>, i: nat): (c: int)
    requires Priceable(u, rates, window) && i < |TOKEN_CLASSES|
    ensures 0 <= c
  {
    var class_ := TOKEN_CLASSES[i];
    assert class_ in TOKEN_CLASSES;
    ExactCost(u.TokensFor(class_), rates.RateFor(class_), Scale(window, class_).0, Scale(window, class_).1)
  }

  function PricedTotal(u: Usage, rates: Rates, window: Option<Window>, n: nat): (total: int)
    requires Priceable(u, rates, window) && n <= |TOKEN_CLASSES|
    ensures 0 <= total
  {
    if n == 0 then 0 else PricedTotal(u, rates, window, n - 1) + ClassCost(u, rates, window, n - 1)
  }

  function PricedLines(u: Usage, rates: Rates, window: Option<Window>, n: nat): seq<PriceLine>
    requires Priceable(u, rates, window) && n <= |TOKEN_CLASSES|
    requires PricedTotal(u, rates, window, n) <= MAX_INT64
  {
    if n == 0 then []
    else
      var class_ := TOKEN_CLASSES[n - 1];
      var before := PricedLines(u, rates, window, n - 1);
      if u.TokensFor(class_) == 0 then before
      else before + [PriceLine(class_, u.TokensFor(class_), rates.RateFor(class_), ClassCost(u, rates, window, n - 1))]
  }

  /** The price of a usage as one unbounded sum: the reference the 64-bit loop is held to. */
  function TotalOf(r: RuleSet, u: Usage, at: int): (total: int)
    requires ValidRules(r) && !u.IsNegative()
    ensures 0 <= total
  {
    RulesPrice(r, u, at);
    PricedTotal(u, RatesForPromptTotal(r, u.promptTotal).0, WindowFor(r.windows, at), |TOKEN_CLASSES|)
  }

  lemma RulesPrice(r: RuleSet, u: Usage, at: int)
    requires ValidRules(r) && !u.IsNegative()
    ensures Priceable(u, RatesForPromptTotal(r, u.promptTotal).0, WindowFor(r.windows, at))
  {
    TierIsGreatestBelow(r, u.promptTotal);
    WindowForIsBest(r.windows, at);
  }

  function ReceiptHead(r: RuleSet, threshold: Int64, window: Option<Window>, at: int): Receipt {
    if window.None? then Receipt(r.id, at, threshold, "", "", 1, 1, r.accounting, [], 0)
    else Receipt(r.id, at, threshold, window.value.id, window.value.caption,
                 window.value.num, window.value.den, r.accounting, [], 0)
  }

  /** A quote succeeds exactly for valid rules, a non-negative usage and a total within int64. */
  function QuoteOf(r: RuleSet, u: Usage, at: int): Result<Quote> {
    if !ValidRules(r) then Err(Misconfigured)
    else if u.IsNegative() then Err(Negative)
    else if TotalOf(r, u, at) > MAX_INT64 then Err(Overflow)
    else
      RulesPrice(r, u, at);
      var (rates, threshold) := RatesForPromptTotal(r, u.promptTotal);
      var window := WindowFor(r.windows, at);
      var total := TotalOf(r, u, at);
      var receipt := ReceiptHead(r, threshold, window, at).(
                     lines := PricedLines(u, rates, window, |TOKEN_CLASSES|), total := total);
      Ok(Quote(r.id, rates, u, total, receipt))
  }

  /** The pricing loop: class by class, with checked additions. */
  method QuoteAt(r: RuleSet, u: Usage, at: int) returns (quote: Result<Quote>)
    ensures quote == QuoteOf(r, u, at)
  {
    var valid := Validate(r);
    if !valid {
      return Err(Misconfigured);
    }
    if u.IsNegative() {
      return Err(Negative);
    }
    RulesPrice(r, u, at);
    var rates, threshold := SelectTier(r, u.promptTotal);
    var window := SelectWindow(r.windows, at);
    var total: Int64 := 0;
    var lines: seq<PriceLine> := [];
    for i := 0 to |TOKEN_CLASSES|
      invariant total == PricedTotal(u, rates, window, i)
      invariant lines == PricedLines(u, rates, window, i)
    {
      ClassStep(u, rates, window, i);
      var class_ := TOKEN_CLASSES[i];
      if u.TokensFor(class_) != 0 {
        var cost := CostForTokensScaled(u.TokensFor(class_), rates.RateFor(class_), Scale(window, class_).0, Scale(window, class_).1);
        if cost.Err? {
          return Err(cost.error);
        }
        var sum := Add(total, cost.value);
        if sum.Err? {
          return Err(sum.error);
        }
        total := sum.value;
        lines := lines + [PriceLine(class_, u.TokensFor(class_), rates.RateFor(class_), cost.value)];
      }
    }
    var receipt := ReceiptHead(r, threshold, window, at).(lines := lines, total := total);
    quote := Ok(Quote(r.id, rates, u, total, receipt));
  }

  /** One turn of the loop: what the scaled cost answers, and that no later turn brings
      an overflowing total back into range. */
  lemma ClassStep(u: Usage, rates: Rates, window: Option<Window>, i: nat)
    requires Priceable(u, rates, window) && i < |TOKEN_CLASSES|
    ensures var class_ := TOKEN_CLASSES[i];
            var c := ClassCost(u, rates, window, i);
            && (u.TokensFor(class_) == 0 ==> c == 0)
            && CostForTokensScaled(u.TokensFor(class_), rates.RateFor(class_), Scale(window, class_).0, Scale(window, class_).1)
               == (if c <= MAX_INT64 then Ok(c) else Err(Overflow))
            && PricedTotal(u, rates, window, i + 1) == PricedTotal(u, rates, window, i) + c
            && PricedTotal(u, rates, window, i + 1) <= PricedTotal(u, rates, window, |TOKEN_CLASSES|)
  {
    var class_ := TOKEN_CLASSES[i];
    assert class_ in TOKEN_CLASSES;
    var (num, den) := Scale(window, class_);
    if u.TokensFor(class_) == 0 {
      assert 0 * rates.RateFor(class_) * num == 0;
    }
    hide Rates.RateFor, Scale, Usage.TokensFor;
    TotalGrows(u, rates, window, i + 1, |TOKEN_CLASSES|);
  }

  lemma {:induction false} TotalGrows(u: Usage, rates: Rates, window: Option<Window>, n: nat, m: nat)
    requires Priceable(u, rates, window) && n <= m <= |TOKEN_CLASSES|
    ensures PricedTotal(u, rates, window, n) <= PricedTotal(u, rates, window, m)
  {
    if n < m {
      TotalGrows(u, rates, window, n, m - 1);
    }
  }
}
