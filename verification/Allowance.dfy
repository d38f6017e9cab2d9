/** Inverting a price: the largest affordable output, and the admission quote built on it
    (MaxOutputTokensAt in pricing/pricing.go, affordableGeneration in proxy/handler.go). */
module Allowance {
  import opened Common
  import opened Money
  import opened Usage
  import opened Windows
  import opened Rules
  import opened Quotes

  /** The binary search as the loop runs it. Its midpoint is computed in int64, and an
      erring quote ends the search. */
  function Search(r: RuleSet, input: Usage, low: Int64, high: Int64, budget: Int64, at: int): Result<Int64>
    requires 0 <= low
    decreases high - low
  {
    if low >= high then Ok(low)
    else
      var mid: Int64 := Wrap64(low + Wrap64(high - low + 1) / 2);
      match QuoteOf(r, input.(output := mid), at)
      case Err(e) => Err(e)
      case Ok(quote) =>
        QuotedIsNonNegative(r, input.(output := mid), at);
        if quote.cost <= budget then Search(r, input, mid, high, budget, at)
        else Search(r, input, low, mid - 1, budget, at)
  }

  lemma QuotedIsNonNegative(r: RuleSet, u: Usage, at: int)
    requires QuoteOf(r, u, at).Ok?
    ensures 0 <= u.output
  {
    IsNegativeMeansAField(u);
  }

  function MaxOutput(r: RuleSet, input: Usage, requested: Int64, budget: Int64, at: int): Result<Int64> {
    if requested < 0 || budget < 0 then Err(Negative)
    else
      match QuoteOf(r, input.(output := 0), at)
      case Err(e) => Err(e)
      case Ok(base) => if base.cost > budget then Ok(0) else Search(r, input, 0, requested, budget, at)
  }

  method MaxOutputTokensAt(r: RuleSet, input: Usage, requested: Int64, budget: Int64, at: int) returns (allowed: Result<Int64>)
    ensures allowed == MaxOutput(r, input, requested, budget, at)
  {
    hide QuoteOf;
    if requested < 0 || budget < 0 {
      return Err(Negative);
    }
    var base := QuoteAt(r, input.(output := 0), at);
    if base.Err? {
      return Err(base.error);
    }
    if base.value.cost > budget {
      return Ok(0);
    }
    var low: Int64, high: Int64 := 0, requested;
    while low < high
      invariant 0 <= low
      invariant Search(r, input, low, high, budget, at) == Search(r, input, 0, requested, budget, at)
      decreases high - low
    {
      var mid: Int64 := Wrap64(low + Wrap64(high - low + 1) / 2);
      var quote := QuoteAt(r, input.(output := mid), at);
      if quote.Err? {
        return Err(quote.error);
      }
      QuotedIsNonNegative(r, input.(output := mid), at);
      if quote.value.cost <= budget {
        low := mid;
      } else {
        high := mid - 1;
      }
    }
    return Ok(low);
  }

  /** The exact cost of an input with n output tokens. */
  function CostWith(r: RuleSet, input: Usage, n: Int64, at: int): (c: int)
    requires ValidRules(r) && !input.IsNegative() && 0 <= n
    ensures 0 <= c
  {
    OutputKeepsSign(input, n);
    TotalOf(r, input.(output := n), at)
  }

  lemma OutputKeepsSign(input: Usage, n: Int64)
    requires !input.IsNegative() && 0 <= n
    ensures !input.(output := n).IsNegative()
  {
    IsNegativeMeansAField(input);
    IsNegativeMeansAField(input.(output := n));
  }

  /** Cost never falls as the output grows: neither the tier nor the window can move. */
  lemma CostRisesWithOutput(r: RuleSet, input: Usage, n: Int64, m: Int64, at: int)
    requires ValidRules(r) && !input.IsNegative() && 0 <= n <= m
    ensures CostWith(r, input, n, at) <= CostWith(r, input, m, at)
  {
    OutputKeepsSign(input, n);
    OutputKeepsSign(input, m);
    RulesPrice(r, input.(output := n), at);
    RulesPrice(r, input.(output := m), at);
    TotalRisesWithOutput(input.(output := n), input.(output := m), RatesForPromptTotal(r, input.promptTotal).0,
                         WindowFor(r.windows, at), |TOKEN_CLASSES|);
  }

  lemma {:induction false} TotalRisesWithOutput(u: Usage, v: Usage, rates: Rates, window: Option<Window>, k: nat)
    requires v == u.(output := v.output) && u.output <= v.output
    requires Priceable(u, rates, window) && Priceable(v, rates, window) && k <= |TOKEN_CLASSES|
    ensures PricedTotal(u, rates, window, k) <= PricedTotal(v, rates, window, k)
  {
    if k > 0 {
      TotalRisesWithOutput(u, v, rates, window, k - 1);
      var class_ := TOKEN_CLASSES[k - 1];
      assert class_ in TOKEN_CLASSES;
      CostMonotone(u.TokensFor(class_), rates.RateFor(class_), v.TokensFor(class_), rates.RateFor(class_),
                   Scale(window, class_).0, Scale(window, class_).1);
    }
  }

  lemma QuoteMeansCost(r: RuleSet, input: Usage, n: Int64, at: int)
    requires ValidRules(r) && !input.IsNegative() && 0 <= n
    ensures QuoteOf(r, input.(output := n), at).Ok? <==> CostWith(r, input, n, at) <= MAX_INT64
    ensures QuoteOf(r, input.(output := n), at).Ok? ==> QuoteOf(r, input.(output := n), at).value.cost == CostWith(r, input, n, at)
    ensures QuoteOf(r, input.(output := n), at).Err? ==> QuoteOf(r, input.(output := n), at).error == Overflow
  {
    OutputKeepsSign(input, n);
  }

  /** `allowed` is the most output the budget pays for, out of what was requested. */
  predicate IsExactAllowance(r: RuleSet, input: Usage, requested: Int64, budget: Int64, at: int, allowed: Int64)
    requires ValidRules(r) && !input.IsNegative()
  {
    && 0 <= allowed <= requested
    && CostWith(r, input, allowed, at) <= budget
    && (allowed < requested ==> CostWith(r, input, allowed + 1, at) > budget)
  }

  /** One turn of the search, away from the wrapping midpoint. */
  lemma SearchStep(r: RuleSet, input: Usage, low: Int64, high: Int64, budget: Int64, at: int) returns (mid: Int64)
    requires ValidRules(r) && !input.IsNegative() && 0 <= low < high && high - low < MAX_INT64
    ensures low < mid == low + (high - low + 1) / 2 <= high
    ensures Search(r, input, low, high, budget, at)
         == if CostWith(r, input, mid, at) > MAX_INT64 then Err(Overflow)
            else if CostWith(r, input, mid, at) <= budget then Search(r, input, mid, high, budget, at)
            else Search(r, input, low, mid - 1, budget, at)
  {
    hide CostWith, QuoteOf;
    mid := low + (high - low + 1) / 2;
    QuoteMeansCost(r, input, mid, at);
  }

  lemma SearchEnds(r: RuleSet, input: Usage, low: Int64, budget: Int64, at: int)
    requires 0 <= low
    ensures Search(r, input, low, low, budget, at) == Ok(low)
  {
  }

  lemma {:induction false} SearchIsExact(r: RuleSet, input: Usage, low: Int64, high: Int64, budget: Int64, at: int)
    requires ValidRules(r) && !input.IsNegative() && 0 <= low <= high
    requires CostWith(r, input, low, at) <= budget
    ensures var found := Search(r, input, low, high, budget, at);
            found.Ok? ==>
              && low <= found.value <= high
              && CostWith(r, input, found.value, at) <= budget
              && (found.value < high ==> CostWith(r, input, found.value + 1, at) > budget)
    decreases high - low
  {
    hide CostWith, Search;
    if low == high {
      SearchEnds(r, input, low, budget, at);
    } else if high - low < MAX_INT64 {
      var mid := SearchStep(r, input, low, high, budget, at);
      if CostWith(r, input, mid, at) <= budget {
        SearchIsExact(r, input, mid, high, budget, at);
      } else {
        SearchIsExact(r, input, low, mid - 1, budget, at);
      }
    } else {
      MidpointWraps(r, input, high, budget, at);
    }
  }

  /** With MaxInt64 requested, high - low + 1 wraps and the first midpoint is negative. */
  lemma MidpointWraps(r: RuleSet, input: Usage, high: Int64, budget: Int64, at: int)
    requires ValidRules(r) && high == MAX_INT64
    ensures Search(r, input, 0, high, budget, at) == Err(Negative)
  {
    var mid: Int64 := Wrap64(0 + Wrap64(high + 1) / 2);
    IsNegativeMeansAField(input.(output := mid));
  }

  lemma {:induction false} SearchSucceeds(r: RuleSet, input: Usage, low: Int64, high: Int64, budget: Int64, at: int)
    requires ValidRules(r) && !input.IsNegative() && 0 <= low <= high
    requires high - low < MAX_INT64 && CostWith(r, input, high, at) <= MAX_INT64
    ensures Search(r, input, low, high, budget, at).Ok?
    decreases high - low
  {
    if low < high {
      var mid := SearchStep(r, input, low, high, budget, at);
      CostRisesWithOutput(r, input, mid, high, at);
      CostRisesWithOutput(r, input, mid - 1, high, at);
      if CostWith(r, input, mid, at) <= budget {
        SearchSucceeds(r, input, mid, high, budget, at);
      } else {
        SearchSucceeds(r, input, low, mid - 1, budget, at);
      }
    }
  }

  /** The first of the upward midpoints, each halving what is left to the request, that the
      budget does not pay for. */
  function FirstRefused(r: RuleSet, input: Usage, low: Int64, high: Int64, budget: Int64, at: int): (refused: Option<Int64>)
    requires ValidRules(r) && !input.IsNegative() && 0 <= low <= high
    ensures refused.Some? ==> low < refused.value <= high
    decreases high - low
  {
    if low == high then None
    else
      var mid: Int64 := low + (high - low + 1) / 2;
      if CostWith(r, input, mid, at) <= budget then FirstRefused(r, input, mid, high, budget, at) else Some(mid)
  }

  /** The search fails exactly when that midpoint cannot be quoted in 64 bits. */
  lemma {:induction false} SearchSucceedsExactly(r: RuleSet, input: Usage, low: Int64, high: Int64, budget: Int64, at: int)
    requires ValidRules(r) && !input.IsNegative() && 0 <= low <= high && high - low < MAX_INT64
    ensures var refused := FirstRefused(r, input, low, high, budget, at);
            Search(r, input, low, high, budget, at).Ok?
            <==> refused.None? || CostWith(r, input, refused.value, at) <= MAX_INT64
    decreases high - low
  {
    hide CostWith, Search;
    if low == high {
      SearchEnds(r, input, low, budget, at);
    } else {
      var mid := SearchStep(r, input, low, high, budget, at);
      if CostWith(r, input, mid, at) <= budget {
        SearchSucceedsExactly(r, input, mid, high, budget, at);
      } else if CostWith(r, input, mid, at) <= MAX_INT64 {
        CostRisesWithOutput(r, input, mid - 1, mid, at);
        SearchSucceeds(r, input, low, mid - 1, budget, at);
      }
    }
  }

  /** A successful inversion whose base fits the budget is the exact maximum. It succeeds
      exactly when the first refused midpoint can be quoted, so whenever the request itself
      can, and asking for MaxInt64 tokens fails instead of answering. */
  lemma MaxOutputIsExact(r: RuleSet, input: Usage, requested: Int64, budget: Int64, at: int)
    requires ValidRules(r) && !input.IsNegative() && 0 <= requested && 0 <= budget
    requires CostWith(r, input, 0, at) <= budget
    ensures var found := MaxOutput(r, input, requested, budget, at);
            && (found.Ok? ==> IsExactAllowance(r, input, requested, budget, at, found.value))
            && (requested < MAX_INT64 ==>
                  var refused := FirstRefused(r, input, 0, requested, budget, at);
                  found.Ok? <==> refused.None? || CostWith(r, input, refused.value, at) <= MAX_INT64)
            && (requested < MAX_INT64 && CostWith(r, input, requested, at) <= MAX_INT64 ==> found.Ok?)
            && (requested == MAX_INT64 ==> found == Err(Negative))
  {
    hide CostWith, Search, FirstRefused, QuoteOf;
    QuoteMeansCost(r, input, 0, at);
    SearchIsExact(r, input, 0, requested, budget, at);
    if requested == MAX_INT64 {
      MidpointWraps(r, input, requested, budget, at);
    } else {
      SearchSucceedsExactly(r, input, 0, requested, budget, at);
      if CostWith(r, input, requested, at) <= MAX_INT64 {
        SearchSucceeds(r, input, 0, requested, budget, at);
      }
    }
  }

  // ---- Admission ----

  datatype Admission =
    | Granted(allowed: Int64, ceiling: Int64)
    | BudgetExceeded(requested: Int64, available: Int64)
    | Failed(error: Error)

  /** The admission quote: take the request whole when it fits, else the largest output
      that fits, else refuse. */
  function AffordableGeneration(r: RuleSet, bound: Int64, requested: Int64, available: Int64, at: int): Admission {
    match QuoteOf(r, InputUsage(bound).(output := requested), at)
    case Err(e) => Failed(e)
    case Ok(quote) =>
      if quote.cost <= available then Granted(requested, quote.cost)
      else
        match MaxOutput(r, InputUsage(bound), requested, available, at)
        case Err(e) => Failed(e)
        case Ok(allowed) =>
          if allowed < 1 then BudgetExceeded(quote.cost, available)
          else
            match QuoteOf(r, InputUsage(bound).(output := allowed), at)
            case Err(e) => Failed(e)
            case Ok(reduced) => Granted(allowed, reduced.cost)
  }

  lemma InputUsageSign(bound: Int64)
    requires 0 <= bound
    ensures !InputUsage(bound).IsNegative()
  {
    IsNegativeMeansAField(InputUsage(bound));
  }

  lemma NothingAffordable(r: RuleSet, input: Usage, requested: Int64, budget: Int64, at: int)
    requires ValidRules(r) && !input.IsNegative() && 0 <= requested && 0 <= budget
    requires CostWith(r, input, 0, at) > budget
    ensures CostWith(r, input, 0, at) <= MAX_INT64 ==> MaxOutput(r, input, requested, budget, at) == Ok(0)
  {
    QuoteMeansCost(r, input, 0, at);
  }

  /** Whatever is granted costs at most what is available. */
  lemma GrantedIsCovered(r: RuleSet, bound: Int64, requested: Int64, available: Int64, at: int)
    requires 0 <= available
    ensures var a := AffordableGeneration(r, bound, requested, available, at);
            a.Granted? ==> 0 <= a.ceiling <= available && 0 <= a.allowed <= requested
  {
    var input := InputUsage(bound);
    if QuoteOf(r, input.(output := requested), at).Ok? {
      IsNegativeMeansAField(input.(output := requested));
      AdmissionIsExact(r, bound, requested, available, at);
    }
  }

  /** Admission grants exactly the largest affordable output, quotes exactly its cost,
      and refuses exactly when not one output token is affordable. It fails exactly on a
      request that cannot be quoted, and on MaxInt64 tokens that have to be reduced. */
  lemma AdmissionIsExact(r: RuleSet, bound: Int64, requested: Int64, available: Int64, at: int)
    requires ValidRules(r) && 0 <= bound && 0 <= requested && 0 <= available
    ensures !InputUsage(bound).IsNegative()
    ensures var a := AffordableGeneration(r, bound, requested, available, at);
            var input := InputUsage(bound);
            && (a.Granted? ==>
                && IsExactAllowance(r, input, requested, available, at, a.allowed)
                && a.ceiling == CostWith(r, input, a.allowed, at))
            && var failed := CostWith(r, input, requested, at) > MAX_INT64
                             || (requested == MAX_INT64
                                 && CostWith(r, input, 0, at) <= available < CostWith(r, input, requested, at));
               && (a.Failed? <==> failed)
               && (a.BudgetExceeded? <==> !failed && CostWith(r, input, Min(1, requested), at) > available)
  {
    InputUsageSign(bound);
    var input := InputUsage(bound);
    QuoteMeansCost(r, input, requested, at);
    QuoteMeansCost(r, input, 0, at);
    CostRisesWithOutput(r, input, 0, requested, at);
    CostRisesWithOutput(r, input, 0, Min(1, requested), at);
    CostRisesWithOutput(r, input, Min(1, requested), requested, at);
    hide CostWith, QuoteOf, MaxOutput;
    if CostWith(r, input, 0, at) > available {
      NothingAffordable(r, input, requested, available, at);
    }
    if CostWith(r, input, requested, at) <= MAX_INT64 && CostWith(r, input, 0, at) <= available {
      MaxOutputIsExact(r, input, requested, available, at);
      var found := MaxOutput(r, input, requested, available, at);
      if found.Ok? {
        QuoteMeansCost(r, input, found.value, at);
        CostRisesWithOutput(r, input, found.value, requested, at);
        if found.value >= 1 {
          CostRisesWithOutput(r, input, 1, found.value, at);
        }
      }
    }
  }
}
