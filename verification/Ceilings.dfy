/** From admission to the recorded charge: what the ceiling guarantees the user, and how
    little it costs the gateway (proxy/handler.go, db/billing_atomic.go). */
module Ceilings {
  import opened Money
  import opened Usage
  import opened Windows
  import opened Rules
  import opened Quotes
  import opened Receipts
  import opened Allowance
  import opened Ledger
  import opened Settlement

  /** A request settled under its granted ceiling is recorded at no more than what was
      available, and, for an upstream that respects the quoted prompt bound and the granted
      output, at no less than its exact quote minus five nano-USD. */
  lemma CapTrimsOnlyRounding(r: RuleSet, bound: Int64, requested: Int64, available: Int64, at: int, actual: Usage, e: Entry)
    requires ValidRules(r) && TiersRise(r) && Uniform(WindowFor(r.windows, at)) && 0 <= available
    requires var granted := AffordableGeneration(r, bound, requested, available, at);
             granted.Granted? && actual.output <= granted.allowed && e.ceiling == granted.ceiling
    requires actual.Conserved() && actual.promptTotal <= bound
    requires CacheNotDearer(RatesForPromptTotal(r, actual.promptTotal).0)
    requires QuoteOf(r, actual, at).Ok? && e.cost == QuoteOf(r, actual, at).value.cost && Succeeded(e.status)
    requires e.ceiling > 0
    ensures NormalizedCost(e).Some?
    ensures e.cost - 5 <= NormalizedCost(e).value <= available
  {
    var granted := AffordableGeneration(r, bound, requested, available, at);
    IsNegativeMeansAField(actual);
    GrantedIsCovered(r, bound, requested, available, at);
    AdmissionIsExact(r, bound, requested, available, at);
    SettledCostExceedsQuoteByRounding(r, actual, bound, granted.allowed, at);
  }
}
