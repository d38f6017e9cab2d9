/** The request log as the handlers fill it in, field by field: pricing, stream outcome and
    the normalisation at settlement (proxy/handler.go, db/billing_atomic.go). */
module RequestLogs {
  import opened Common
  import opened Money
  import opened Usage
  import opened Rules
  import opened Quotes
  import opened Ledger
  import opened Settlement
  import Windows

  function RequestStatusForHTTP(status: int): string {
    if 200 <= status < 300 then "succeeded"
    else if status == 402 then "rejected_budget"
    else if status == 429 then "rejected_rate_limit"
    else if status == 499 then "cancelled"
    else if status == 504 then "timed_out"
    else "failed"
  }

  /** Why an upstream attempt ended early. */
  datatype Failure = TimedOut | Cancelled | Broken

  function FailureStatus(failure: Failure): (status: int)
    ensures !Succeeded(status)
  {
    match failure case TimedOut => 504 case Cancelled => 499 case Broken => 502
  }

  function FailureMessage(failure: Failure): string {
    match failure
    case TimedOut => "stream timed out before the terminal event"
    case Cancelled => "request cancelled before the terminal event"
    case Broken => "upstream stream ended before the terminal event"
  }

  const CAPPED := "provider usage exceeded the affordable request ceiling; customer charge capped"
  const PRICING_FAILED := "exact pricing failed: "

  function WithMessage(before: string, message: string): string {
    if before == "" then message else before + "; " + message
  }

  /** The quote a report leads to; a model without usable rules has none. */
  function QuoteFor(rules: Option<RuleSet>, reported: ReportedUsage, mode: PromptAccounting, at: int): Result<Quote> {
    if rules.None? then Err(Misconfigured) else QuoteOf(rules.value, NormalizeUsage(reported, mode).0, at)
  }

  class RequestLog {
    var id: string
    var status: int
    var requestStatus: string
    var cost: int
    var ceiling: int
    var createdAt: int
    var usageEstimated: bool
    var errorMessage: string

    var accounting: PromptAccounting
    var anomaly: Anomaly
    var inputTokens: Int64
    var outputTokens: Int64
    var cacheReadTokens: Int64
    var cacheWriteTokens: Int64

    var ruleSetId: string
    var tierThreshold: Option<Int64>
    var windowId: string
    var multiplier: (Int64, Int64)
    var pricedAt: Option<int>
    var lines: seq<PriceLine>

    constructor (entry: Entry)
      ensures Billing() == entry && requestStatus == "" && errorMessage == "" && !usageEstimated && lines == []
    {
      id, status, cost, ceiling, createdAt := entry.id, entry.status, entry.cost, entry.ceiling, entry.createdAt;
      requestStatus, usageEstimated, errorMessage := "", false, "";
      accounting, anomaly := Unset, NoAnomaly;
      inputTokens, outputTokens, cacheReadTokens, cacheWriteTokens := 0, 0, 0, 0;
      ruleSetId, tierThreshold, windowId, multiplier, pricedAt, lines := "", None, "", (1, 1), None, [];
    }

    /** What billing reads of the log. */
    function Billing(): Entry
      reads this
    {
      Entry(id, cost, ceiling, createdAt, status)
    }

    /** The log keeps what its charge was derived from; the base tier leaves no threshold. */
    predicate Derivation(receipt: Receipt)
      reads this
    {
      && ruleSetId == receipt.ruleSetId && windowId == receipt.windowId && lines == receipt.lines
      && multiplier == (receipt.num, receipt.den)
      && tierThreshold == (if receipt.tierThreshold == BASE_TIER_THRESHOLD then None else Some(receipt.tierThreshold))
      && (receipt.pricedAt != Windows.ZERO_TIME ==> pricedAt == Some(receipt.pricedAt))
    }

    /** Settlement's last word on the cost: nothing for a failure, never above the ceiling,
        and a capped charge is marked. A negative cost is refused untouched. */
    method NormalizeSettledEntry() returns (ok: bool)
      modifies `cost, `requestStatus, `usageEstimated, `errorMessage
      ensures ok <==> old(cost) >= 0
      ensures Billing() == if ok then old(Billing()).(cost := NormalizedCost(old(Billing())).value) else old(Billing())
      ensures ok ==> requestStatus == if old(requestStatus) == "" then RequestStatusForHTTP(status) else old(requestStatus)
      ensures var capped := ok && Succeeded(status) && 0 < ceiling < old(cost);
              && usageEstimated == (old(usageEstimated) || capped)
              && errorMessage == if capped then WithMessage(old(errorMessage), CAPPED) else old(errorMessage)
    {
      if cost < 0 {
        return false;
      }
      if status < 200 || status >= 300 {
        cost := 0;
      }
      if requestStatus == "" {
        requestStatus := RequestStatusForHTTP(status);
      }
      if ceiling > 0 && cost > ceiling {
        cost := ceiling;
        usageEstimated := true;
        errorMessage := WithMessage(errorMessage, CAPPED);
      }
      return true;
    }

    /** Records the charge and its derivation. */
    method ApplyQuote(quote: Quote)
      modifies `cost, `lines, `ruleSetId, `tierThreshold, `windowId, `multiplier, `pricedAt
      ensures cost == quote.cost && Derivation(quote.receipt)
      ensures pricedAt == if quote.receipt.pricedAt == Windows.ZERO_TIME then old(pricedAt) else Some(quote.receipt.pricedAt)
    {
      cost := quote.cost;
      var receipt := quote.receipt;
      ruleSetId := receipt.ruleSetId;
      windowId := receipt.windowId;
      multiplier := (receipt.num, receipt.den);
      if receipt.tierThreshold != BASE_TIER_THRESHOLD {
        tierThreshold := Some(receipt.tierThreshold);
      } else {
        tierThreshold := None;
      }
      if receipt.pricedAt != Windows.ZERO_TIME {
        pricedAt := Some(receipt.pricedAt);
      }
      lines := [];
      for i := 0 to |receipt.lines|
        modifies `lines
        invariant lines == receipt.lines[..i]
      {
        lines := lines + [receipt.lines[i]];
      }
    }

    /** The log's counters are the canonical ones, the cache lifetimes added up. */
    predicate Counts(usage: Usage)
      reads `inputTokens, `outputTokens, `cacheReadTokens, `cacheWriteTokens
    {
      && inputTokens == usage.promptTotal && outputTokens == usage.output
      && cacheReadTokens == Wrap64(usage.cacheRead + usage.cacheRead5m)
      && cacheWriteTokens == Wrap64(Wrap64(usage.cacheWrite + usage.cacheWrite5m) + usage.cacheWrite1h)
    }

    method RecordTokens(usage: Usage)
      modifies `inputTokens, `outputTokens, `cacheReadTokens, `cacheWriteTokens
      ensures Counts(usage)
    {
      inputTokens, outputTokens := usage.promptTotal, usage.output;
      cacheReadTokens := Wrap64(usage.cacheRead + usage.cacheRead5m);
      cacheWriteTokens := Wrap64(Wrap64(usage.cacheWrite + usage.cacheWrite5m) + usage.cacheWrite1h);
    }

    /** The one place reported usage becomes money: the canonical usage is quoted at the
        pinned instant, and a quote that fails costs nothing but is marked with the error,
        whose wording is the caller's. */
    method SetCalculatedCost(rules: Option<RuleSet>, mode: PromptAccounting, reported: ReportedUsage, at: int, describe: Error -> string)
      modifies `cost, `lines, `ruleSetId, `tierThreshold, `windowId, `multiplier, `pricedAt
      modifies `accounting, `anomaly, `inputTokens, `outputTokens, `cacheReadTokens, `cacheWriteTokens
      modifies `usageEstimated, `errorMessage
      ensures accounting == mode && anomaly == NormalizeUsage(reported, mode).1
      ensures Counts(NormalizeUsage(reported, mode).0)
      ensures var quote := QuoteFor(rules, reported, mode, at);
              if quote.Ok? then
                && cost == quote.value.cost && Derivation(quote.value.receipt)
                && usageEstimated == old(usageEstimated) && errorMessage == old(errorMessage)
              else
                && cost == 0 && lines == old(lines) && ruleSetId == old(ruleSetId) && windowId == old(windowId)
                && multiplier == old(multiplier) && tierThreshold == old(tierThreshold) && pricedAt == old(pricedAt)
                && usageEstimated && errorMessage == WithMessage(old(errorMessage), PRICING_FAILED + describe(quote.error))
    {
      hide QuoteOf, NormalizeUsage, Counts, Derivation, WithMessage, Wrap64;
      var (usage, found) := NormalizeUsage(reported, mode);
      accounting, anomaly := mode, found;
      RecordTokens(usage);
      var quote: Result<Quote> := Err(Misconfigured);
      if rules.Some? {
        quote := QuoteAt(rules.value, usage, at);
        if quote.Ok? {
          ApplyQuote(quote.value);
          return;
        }
      }
      MarkUnpriced(describe(quote.error));
    }

    method MarkUnpriced(error: string)
      modifies `cost, `usageEstimated, `errorMessage
      ensures cost == 0 && usageEstimated && errorMessage == WithMessage(old(errorMessage), PRICING_FAILED + error)
    {
      cost := 0;
      usageEstimated := true;
      errorMessage := WithMessage(errorMessage, PRICING_FAILED + error);
    }

    /** A stream that did not end normally keeps its tokens but never its cost. */
    method SetStreamOutcome(failure: Option<Failure>)
      modifies `status, `requestStatus, `errorMessage, `cost
      ensures requestStatus == RequestStatusForHTTP(status)
      ensures failure.None? ==> status == 200 && cost == old(cost) && errorMessage == old(errorMessage)
      ensures failure.Some? ==>
                status == FailureStatus(failure.value) && cost == 0 && errorMessage == FailureMessage(failure.value)
    {
      if failure.None? {
        status := 200;
        requestStatus := RequestStatusForHTTP(status);
        return;
      }
      status := FailureStatus(failure.value);
      errorMessage := "upstream stream ended before the terminal event";
      if status == 504 {
        errorMessage := "stream timed out before the terminal event";
      } else if status == 499 {
        errorMessage := "request cancelled before the terminal event";
      }
      requestStatus := RequestStatusForHTTP(status);
      cost := 0;
    }
  }
}
