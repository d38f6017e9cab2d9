/** Upstream usage in its own convention and its one canonical shape (pricing/usage.go,
    with the two readers of cache-write breakdowns from proxy/handler.go and
    proxy/translator.go). Counters are int64 and their sums wrap. */
module Usage {
  import opened Money

  /** Token classes are strings in the program; Unknown stands for every other string. */
  datatype TokenClass =
    | InputFresh | Output
    | CacheRead | CacheRead5m
    | CacheWrite | CacheWrite5m | CacheWrite1h
    | Unknown(name: string)

  /** The canonical order of the classes on a receipt. */
  const TOKEN_CLASSES: seq<TokenClass> :=
    [InputFresh, Output, CacheRead, CacheRead5m, CacheWrite, CacheWrite5m, CacheWrite1h]

  datatype PromptAccounting = Unset | Inclusive | Exclusive | OtherMode(name: string)

  datatype Anomaly = NoAnomaly | PromptBelowCache | NegativeTokens

  datatype ReportedUsage = ReportedUsage(
    prompt: Int64, output: Int64,
    cacheRead: Int64, cacheRead5m: Int64,
    cacheWrite: Int64, cacheWrite5m: Int64, cacheWrite1h: Int64)
  {
    predicate HasNegative() {
      prompt < 0 || output < 0 || cacheRead < 0 || cacheRead5m < 0
      || cacheWrite < 0 || cacheWrite5m < 0 || cacheWrite1h < 0
    }

    function CacheReadTotal(): Int64 {
      Wrap64(cacheRead + cacheRead5m)
    }

    function CacheWriteTotal(): Int64 {
      Wrap64(Wrap64(cacheWrite + cacheWrite5m) + cacheWrite1h)
    }
  }

  datatype Usage = Usage(
    promptTotal: Int64, freshInput: Int64, output: Int64,
    cacheRead: Int64, cacheRead5m: Int64,
    cacheWrite: Int64, cacheWrite5m: Int64, cacheWrite1h: Int64)
  {
    function TokensFor(class_: TokenClass): Int64 {
      match class_
      case InputFresh => freshInput
      case Output => output
      case CacheRead => cacheRead
      case CacheRead5m => cacheRead5m
      case CacheWrite => cacheWrite
      case CacheWrite5m => cacheWrite5m
      case CacheWrite1h => cacheWrite1h
      case Unknown(_) => 0
    }

    predicate IsNegative() {
      (exists class_ | class_ in TOKEN_CLASSES :: TokensFor(class_) < 0) || promptTotal < 0
    }

    /** All cached prompt tokens, as a true sum. */
    function Cached(): int {
      cacheRead + cacheRead5m + cacheWrite + cacheWrite5m + cacheWrite1h
    }

    /** No field is negative and the prompt is exactly its fresh and its cached part. */
    predicate Conserved() {
      !IsNegative() && freshInput + Cached() == promptTotal
    }
  }

  lemma IsNegativeMeansAField(u: Usage)
    ensures u.IsNegative() <==>
              || u.promptTotal < 0 || u.freshInput < 0 || u.output < 0
              || u.cacheRead < 0 || u.cacheRead5m < 0
              || u.cacheWrite < 0 || u.cacheWrite5m < 0 || u.cacheWrite1h < 0
  {
    forall i | 0 <= i < 7 ensures TOKEN_CLASSES[i] in TOKEN_CLASSES {}
    assert TOKEN_CLASSES[0] == InputFresh && TOKEN_CLASSES[1] == Output && TOKEN_CLASSES[2] == CacheRead
           && TOKEN_CLASSES[3] == CacheRead5m && TOKEN_CLASSES[4] == CacheWrite
           && TOKEN_CLASSES[5] == CacheWrite5m && TOKEN_CLASSES[6] == CacheWrite1h;
  }

  function Clamp(value: Int64): Int64 {
    if value < 0 then 0 else value
  }

  function ClampReported(r: ReportedUsage): ReportedUsage {
    ReportedUsage(Clamp(r.prompt), Clamp(r.output), Clamp(r.cacheRead), Clamp(r.cacheRead5m),
                  Clamp(r.cacheWrite), Clamp(r.cacheWrite5m), Clamp(r.cacheWrite1h))
  }

  function NormalizeUsage(reported: ReportedUsage, mode: PromptAccounting): (Usage, Anomaly) {
    var r := if reported.HasNegative() then ClampReported(reported) else reported;
    var anomaly := if reported.HasNegative() then NegativeTokens else NoAnomaly;
    var cached: Int64 := Wrap64(r.CacheReadTotal() + r.CacheWriteTotal());
    if mode == Exclusive then
      (Canonical(r, Wrap64(r.prompt + cached), r.prompt), anomaly)
    else
      var uncached: Int64 := Wrap64(r.prompt - cached);
      if uncached < 0 then
        (Canonical(r, cached, 0), if anomaly == NoAnomaly then PromptBelowCache else anomaly)
      else
        (Canonical(r, r.prompt, uncached), anomaly)
  }

  function Canonical(r: ReportedUsage, promptTotal: Int64, freshInput: Int64): Usage {
    Usage(promptTotal, freshInput, r.output, r.cacheRead, r.cacheRead5m, r.cacheWrite, r.cacheWrite5m, r.cacheWrite1h)
  }

  function InputUsage(promptTokens: Int64): Usage {
    Usage(promptTokens, promptTokens, 0, 0, 0, 0, 0, 0)
  }

  /** The clamped cached tokens of a report, as a true sum. */
  function ReportedCached(r: ReportedUsage): int {
    Clamp(r.cacheRead) + Clamp(r.cacheRead5m) + Clamp(r.cacheWrite) + Clamp(r.cacheWrite5m) + Clamp(r.cacheWrite1h)
  }

  /** What an upstream must respect for the 64-bit sums not to wrap. */
  predicate SumsFit(r: ReportedUsage, mode: PromptAccounting) {
    if mode == Exclusive then Clamp(r.prompt) + ReportedCached(r) <= MAX_INT64
    else ReportedCached(r) <= MAX_INT64
  }

  /** The numbers an accepted report turns into, and when it is marked as inconsistent. */
  lemma NormalizedUsageMeaning(r: ReportedUsage, mode: PromptAccounting)
    requires SumsFit(r, mode)
    ensures var (u, anomaly) := NormalizeUsage(r, mode);
            && KeepsCounters(u, r) && u.Cached() == ReportedCached(r)
            && u.freshInput >= 0 && u.freshInput + u.Cached() == u.promptTotal
            && (mode == Exclusive ==> u.freshInput == Clamp(r.prompt))
            && (mode != Exclusive ==> u.promptTotal == Max(Clamp(r.prompt), ReportedCached(r)))
            && (anomaly == NegativeTokens <==> r.HasNegative())
            && (anomaly == PromptBelowCache <==>
                !r.HasNegative() && mode != Exclusive && r.prompt < ReportedCached(r))
  {
    NormalizedByClamping(r, mode);
    ClampIsHarmless(r);
    hide NormalizeUsage, ReportedUsage.HasNegative;
  }

  /** The three branches on the clamped report, where no sum wraps. */
  lemma NormalizedByClamping(r: ReportedUsage, mode: PromptAccounting)
    requires SumsFit(r, mode)
    ensures var c, cached := ClampReported(r), ReportedCached(r);
            var (u, anomaly) := NormalizeUsage(r, mode);
            && 0 <= c.prompt && 0 <= cached
            && u == Canonical(c, u.promptTotal, u.freshInput)
            && (if mode == Exclusive then u.freshInput == c.prompt && u.promptTotal == c.prompt + cached
                else u.freshInput == Max(0, c.prompt - cached) && u.promptTotal == Max(c.prompt, cached))
            && anomaly == (if r.HasNegative() then NegativeTokens
                           else if mode != Exclusive && c.prompt < cached then PromptBelowCache else NoAnomaly)
  {
    ClampIsHarmless(r);
    var c := ClampReported(r);
    assert c.prompt == Clamp(r.prompt) >= 0 && 0 <= ReportedCached(r);
    CachedOfReport(r, ReportedCached(r));
    hide Wrap64, Clamp, ReportedCached, ClampReported, ReportedUsage.HasNegative, ReportedUsage.CacheReadTotal, ReportedUsage.CacheWriteTotal;
    WrapFits(ReportedCached(r));
    if mode == Exclusive {
      WrapFits(c.prompt + ReportedCached(r));
    } else {
      WrapFits(c.prompt - ReportedCached(r));
    }
  }

  /** Output and cache counters are the reported ones, each class for itself, negatives at zero. */
  predicate KeepsCounters(u: Usage, r: ReportedUsage) {
    && u.output == Clamp(r.output)
    && u.cacheRead == Clamp(r.cacheRead) && u.cacheRead5m == Clamp(r.cacheRead5m)
    && u.cacheWrite == Clamp(r.cacheWrite) && u.cacheWrite5m == Clamp(r.cacheWrite5m)
    && u.cacheWrite1h == Clamp(r.cacheWrite1h)
  }

  /** Clamping a report without negatives changes nothing. */
  lemma ClampIsHarmless(r: ReportedUsage)
    ensures !r.HasNegative() ==> ClampReported(r) == r
  {
  }

  lemma WrapFits(n: int)
    ensures IsInt64(n) ==> Wrap64(n) == n
  {
  }

  lemma CachedOfReport(r: ReportedUsage, cached: int)
    requires cached == ReportedCached(r) <= MAX_INT64
    ensures var c := ClampReported(r);
            && c.CacheReadTotal() + c.CacheWriteTotal() == cached
            && c.cacheRead + c.cacheRead5m + c.cacheWrite + c.cacheWrite5m + c.cacheWrite1h == cached
  {
    hide Wrap64;
    var c := ClampReported(r);
    WrapFits(c.cacheRead + c.cacheRead5m);
    WrapFits(c.cacheWrite + c.cacheWrite5m);
    WrapFits(c.cacheWrite + c.cacheWrite5m + c.cacheWrite1h);
  }

  /** Tokens are conserved in every branch, clamps included, exactly when the counters fit. */
  lemma NormalizedUsageIsConserved(r: ReportedUsage, mode: PromptAccounting)
    ensures NormalizeUsage(r, mode).0.Conserved() <==> SumsFit(r, mode)
  {
    var u := NormalizeUsage(r, mode).0;
    IsNegativeMeansAField(u);
    if SumsFit(r, mode) {
      NormalizedUsageMeaning(r, mode);
    } else {
      UnfitReport(r, mode);
    }
  }

  lemma UnfitReport(r: ReportedUsage, mode: PromptAccounting)
    requires !SumsFit(r, mode)
    ensures var u := NormalizeUsage(r, mode).0;
            u.freshInput < 0 || u.freshInput + u.Cached() > MAX_INT64
  {
    var u := NormalizeUsage(r, mode).0;
    var c := if r.HasNegative() then ClampReported(r) else r;
    assert u.Cached() == ReportedCached(r);
    assert mode == Exclusive ==> u.freshInput == c.prompt == Clamp(r.prompt);
  }

  /** One reality, two dialects: counting cached tokens inside the prompt or beside it
      gives the same canonical usage, without an anomaly. */
  lemma DialectsAgree(freshTokens: nat, output: Int64, cacheRead: Int64, cacheRead5m: Int64,
                      cacheWrite: Int64, cacheWrite5m: Int64, cacheWrite1h: Int64)
    requires output >= 0 && cacheRead >= 0 && cacheRead5m >= 0
    requires cacheWrite >= 0 && cacheWrite5m >= 0 && cacheWrite1h >= 0
    requires freshTokens + cacheRead + cacheRead5m + cacheWrite + cacheWrite5m + cacheWrite1h <= MAX_INT64
    ensures var total := freshTokens + cacheRead + cacheRead5m + cacheWrite + cacheWrite5m + cacheWrite1h;
            var inclusive := ReportedUsage(total, output, cacheRead, cacheRead5m, cacheWrite, cacheWrite5m, cacheWrite1h);
            var exclusive := ReportedUsage(freshTokens, output, cacheRead, cacheRead5m, cacheWrite, cacheWrite5m, cacheWrite1h);
            && NormalizeUsage(inclusive, Inclusive) == NormalizeUsage(exclusive, Exclusive)
            && NormalizeUsage(inclusive, Inclusive).1 == NoAnomaly
            && NormalizeUsage(inclusive, Inclusive).0.freshInput == freshTokens
            && NormalizeUsage(inclusive, Inclusive).0.promptTotal == total
            && NormalizeUsage(inclusive, Inclusive).0.Conserved()
  {
    var total := freshTokens + cacheRead + cacheRead5m + cacheWrite + cacheWrite5m + cacheWrite1h;
    var inclusive := ReportedUsage(total, output, cacheRead, cacheRead5m, cacheWrite, cacheWrite5m, cacheWrite1h);
    var exclusive := ReportedUsage(freshTokens, output, cacheRead, cacheRead5m, cacheWrite, cacheWrite5m, cacheWrite1h);
    ClampIsHarmless(inclusive);
    ClampIsHarmless(exclusive);
    assert !inclusive.HasNegative() && !exclusive.HasNegative();
    assert ReportedCached(inclusive) == ReportedCached(exclusive) == total - freshTokens;
    assert SumsFit(inclusive, Inclusive) && SumsFit(exclusive, Exclusive);
    hide NormalizeUsage, Clamp, ClampReported, ReportedCached, SumsFit, ReportedUsage.HasNegative;
    NormalizedUsageIsConserved(inclusive, Inclusive);
    NormalizedByClamping(inclusive, Inclusive);
    NormalizedByClamping(exclusive, Exclusive);
  }

  /** An Anthropic payload; the per-lifetime split arrives beside a flat total. */
  datatype AnthropicUsage = AnthropicUsage(
    input: Int64, output: Int64, cacheRead: Int64, cacheCreation: Int64, creation5m: Int64, creation1h: Int64)

  function AnthropicReported(u: AnthropicUsage): ReportedUsage {
    var remainder := Wrap64(Wrap64(u.cacheCreation - u.creation5m) - u.creation1h);
    ReportedUsage(u.input, u.output, u.cacheRead, 0,
                  if remainder > 0 then remainder else 0, u.creation5m, u.creation1h)
  }

  /** The OpenAI-dialect reader of the same split: it floors the flat part at zero. */
  function CacheWriteTokensByTTL(reportedWrites: Int64, fiveMinute: Int64, oneHour: Int64): (Int64, Int64, Int64) {
    var flat := Wrap64(Wrap64(reportedWrites - fiveMinute) - oneHour);
    (if flat < 0 then 0 else flat, fiveMinute, oneHour)
  }

  /** A provider that reports both shapes is billed for the larger one and never for
      both, exactly while the subtraction of the split does not wrap. */
  lemma AnthropicWritesAreCountedOnce(u: AnthropicUsage)
    requires u.cacheCreation >= 0 && u.creation5m >= 0 && u.creation1h >= 0
    ensures var r := AnthropicReported(u);
            r.cacheWrite + r.cacheWrite5m + r.cacheWrite1h == Max(u.cacheCreation, u.creation5m + u.creation1h)
            <==> u.cacheCreation - u.creation5m - u.creation1h >= MIN_INT64
  {
    assert IsInt64(u.cacheCreation - u.creation5m);
  }

  lemma OpenAIWritesAreCountedOnce(reportedWrites: Int64, fiveMinute: Int64, oneHour: Int64)
    requires reportedWrites >= 0 && fiveMinute >= 0 && oneHour >= 0
    ensures var (flat, five, hour) := CacheWriteTokensByTTL(reportedWrites, fiveMinute, oneHour);
            flat + five + hour == Max(reportedWrites, fiveMinute + oneHour)
            <==> reportedWrites - fiveMinute - oneHour >= MIN_INT64
  {
    assert IsInt64(reportedWrites - fiveMinute);
  }
}
