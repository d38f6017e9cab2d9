/** What a receipt proves about the charge it derives, and how far a settled cost can
    exceed the ceiling it was admitted under (pricing/pricing.go, proxy/handler.go). */
module Receipts {
  import opened Common
  import opened Money
  import opened Usage
  import opened Windows
  import opened Rules
  import opened Quotes

  function SumCosts(lines: seq<PriceLine>): int {
    if lines == [] then 0 else SumCosts(lines[..|lines| - 1]) + lines[|lines| - 1].cost
  }

  /** Tokens of the prompt, that is of every class but the output. */
  function PromptTokens(lines: seq<PriceLine>): int {
    if lines == [] then 0
    else PromptTokens(lines[..|lines| - 1]) + (if lines[|lines| - 1].class_ == Output then 0 else lines[|lines| - 1].tokens)
  }

  /** One million times the exact rational price of the lines, over the window's denominator. */
  function ExactPrice(lines: seq<PriceLine>, window: Option<Window>): int {
    if lines == [] then 0
    else ExactPrice(lines[..|lines| - 1], window) + LinePrice(lines[|lines| - 1], window)
  }

  /** A class outside the window's scope is scaled by 1 = den/den. */
  function LinePrice(line: PriceLine, window: Option<Window>): int {
    line.tokens * line.rate * (if Covers(window, line.class_) then window.value.num else Denominator(window))
  }

  predicate Covers(window: Option<Window>, class_: TokenClass) {
    window.Some? && (window.value.appliesTo == [] || class_ in window.value.appliesTo)
  }

  function Denominator(window: Option<Window>): int {
    if window.None? then 1 else window.value.den
  }

  function LineOf(u: Usage, rates: Rates, window: Option<Window>, i: nat): PriceLine
    requires Priceable(u, rates, window) && i < |TOKEN_CLASSES| && ClassCost(u, rates, window, i) <= MAX_INT64
  {
    PriceLine(TOKEN_CLASSES[i], u.TokensFor(TOKEN_CLASSES[i]), rates.RateFor(TOKEN_CLASSES[i]), ClassCost(u, rates, window, i))
  }

  lemma LineRoundsOnce(u: Usage, rates: Rates, window: Option<Window>, i: nat)
    requires Priceable(u, rates, window) && i < |TOKEN_CLASSES| && ClassCost(u, rates, window, i) <= MAX_INT64
    ensures var line := LineOf(u, rates, window, i);
            var D := PER_MILLION * Denominator(window);
            (line.cost - 1) * D < LinePrice(line, window) <= line.cost * D
  {
    var class_ := TOKEN_CLASSES[i];
    assert class_ in TOKEN_CLASSES;
    var tokens, rate := u.TokensFor(class_), rates.RateFor(class_);
    if window.Some? && !Covers(window, class_) {
      SameExactCost(tokens, rate, window.value.den);
      CostWithinOneNano(tokens, rate, window.value.den, window.value.den);
    } else {
      CostWithinOneNano(tokens, rate, Scale(window, class_).0, Scale(window, class_).1);
    }
  }

  lemma SameExactCost(tokens: int, rate: int, den: int)
    requires 0 <= tokens && 0 <= rate && 0 < den
    ensures ExactCost(tokens, rate, 1, 1) == ExactCost(tokens, rate, den, den)
  {
    CostRatioAtMost(tokens, rate, 1, 1, den, den);
    CostRatioAtMost(tokens, rate, den, den, 1, 1);
  }

  lemma LineStep(u: Usage, rates: Rates, window: Option<Window>, n: nat)
    requires Priceable(u, rates, window) && 0 < n <= |TOKEN_CLASSES|
    requires PricedTotal(u, rates, window, n) <= MAX_INT64
    ensures PricedTotal(u, rates, window, n) == PricedTotal(u, rates, window, n - 1) + ClassCost(u, rates, window, n - 1)
    ensures var before, lines := PricedLines(u, rates, window, n - 1), PricedLines(u, rates, window, n);
            var class_ := TOKEN_CLASSES[n - 1];
            var c := ClassCost(u, rates, window, n - 1);
            if u.TokensFor(class_) == 0 then c == 0 && lines == before
            else c <= MAX_INT64 && lines[..|lines| - 1] == before
                 && lines == before + [LineOf(u, rates, window, n - 1)]
  {
    ClassStep(u, rates, window, n - 1);
  }

  lemma {:induction false} LineSums(u: Usage, rates: Rates, window: Option<Window>, n: nat)
    requires Priceable(u, rates, window) && n <= |TOKEN_CLASSES|
    requires PricedTotal(u, rates, window, n) <= MAX_INT64
    ensures SumCosts(PricedLines(u, rates, window, n)) == PricedTotal(u, rates, window, n)
    ensures PromptTokens(PricedLines(u, rates, window, n)) == PromptPrefix(u, n)
  {
    hide ClassCost, PricedTotal;
    if n == 0 {
      NoLinesYet(u, rates, window);
    } else {
      LineStep(u, rates, window, n);
      LineSums(u, rates, window, n - 1);
    }
  }

  /** The rounding of k lines stays below k nano-USD. */
  predicate Within(exact: int, total: int, k: int, D: int) {
    && (total - k) * D <= exact <= total * D
    && (k > 0 ==> (total - k) * D < exact)
  }

  lemma WithinStep(exact: int, total: int, k: int, D: int, exact': int, cost: int)
    requires Within(exact, total, k, D) && 0 <= k && (cost - 1) * D < exact' <= cost * D
    ensures Within(exact + exact', total + cost, k + 1, D)
  {
    assert (total + cost) * D == total * D + cost * D;
    assert (total + cost - (k + 1)) * D == (total - k) * D + (cost - 1) * D;
  }

  lemma {:induction false} LinePriceBounds(u: Usage, rates: Rates, window: Option<Window>, n: nat)
    requires Priceable(u, rates, window) && n <= |TOKEN_CLASSES|
    requires PricedTotal(u, rates, window, n) <= MAX_INT64
    ensures var lines := PricedLines(u, rates, window, n);
            Within(ExactPrice(lines, window), PricedTotal(u, rates, window, n), |lines|, PER_MILLION * Denominator(window))
  {
    hide ClassCost, PricedTotal, PricedLines, LinePrice, Within, Denominator;
    if n == 0 {
      NoLinesYet(u, rates, window);
      NothingRounded(PER_MILLION * Denominator(window));
    } else {
      LineStep(u, rates, window, n);
      LinePriceBounds(u, rates, window, n - 1);
      var before := PricedLines(u, rates, window, n - 1);
      if u.TokensFor(TOKEN_CLASSES[n - 1]) != 0 {
        LineRoundsOnce(u, rates, window, n - 1);
        var line := LineOf(u, rates, window, n - 1);
        WithinStep(ExactPrice(before, window), PricedTotal(u, rates, window, n - 1), |before|,
                   PER_MILLION * Denominator(window), LinePrice(line, window), line.cost);
      }
    }
  }

  lemma NothingRounded(D: int)
    ensures Within(0, 0, 0, D)
  {
  }

  lemma NoLinesYet(u: Usage, rates: Rates, window: Option<Window>)
    requires Priceable(u, rates, window)
    ensures PricedTotal(u, rates, window, 0) == 0 && PricedLines(u, rates, window, 0) == []
  {
  }

  function PromptPrefix(u: Usage, n: nat): int
    requires n <= |TOKEN_CLASSES|
  {
    if n == 0 then 0
    else PromptPrefix(u, n - 1) + (if TOKEN_CLASSES[n - 1] == Output then 0 else u.TokensFor(TOKEN_CLASSES[n - 1]))
  }

  lemma PromptPrefixInFull(u: Usage)
    ensures PromptPrefix(u, 7) == u.freshInput + u.Cached()
  {
    assert PromptPrefix(u, 1) == u.freshInput;
    assert PromptPrefix(u, 2) == u.freshInput;
    assert PromptPrefix(u, 3) == u.freshInput + u.cacheRead;
    assert PromptPrefix(u, 4) == u.freshInput + u.cacheRead + u.cacheRead5m;
    assert PromptPrefix(u, 5) == u.freshInput + u.cacheRead + u.cacheRead5m + u.cacheWrite;
    assert PromptPrefix(u, 6) == u.freshInput + u.cacheRead + u.cacheRead5m + u.cacheWrite + u.cacheWrite5m;
  }

  /** A receipt adds up to its total, never under the exact rational price, and with k
      lines less than k nano-USD above it; its prompt lines add up to the prompt. */
  lemma ReceiptAddsUp(r: RuleSet, u: Usage, at: int)
    requires QuoteOf(r, u, at).Ok?
    ensures var receipt := QuoteOf(r, u, at).value.receipt;
            var window := WindowFor(r.windows, at);
            var D := PER_MILLION * Denominator(window);
            && SumCosts(receipt.lines) == receipt.total == QuoteOf(r, u, at).value.cost
            && ExactPrice(receipt.lines, window) <= receipt.total * D
            && (receipt.lines != [] ==> (receipt.total - |receipt.lines|) * D < ExactPrice(receipt.lines, window))
            && (receipt.lines == [] ==> receipt.total == 0)
            && (u.Conserved() ==> PromptTokens(receipt.lines) == u.promptTotal)
  {
    hide QuoteOf, PricedLines, PricedTotal, WindowFor, RatesForPromptTotal, Priceable, ExactPrice, SumCosts, PromptTokens,
         Denominator, PromptPrefix, Usage.IsNegative, Within;
    QuotedLines(r, u, at);
    var window, rates := WindowFor(r.windows, at), RatesForPromptTotal(r, u.promptTotal).0;
    var lines := PricedLines(u, rates, window, 7);
    LineSums(u, rates, window, 7);
    LinePriceBounds(u, rates, window, 7);
    WithinMeans(ExactPrice(lines, window), PricedTotal(u, rates, window, 7), |lines|, PER_MILLION * Denominator(window));
    PromptPrefixInFull(u);
    if lines == [] {
      NoCosts();
    }
  }

  lemma WithinMeans(exact: int, total: int, k: int, D: int)
    requires Within(exact, total, k, D)
    ensures exact <= total * D && (k > 0 ==> (total - k) * D < exact)
  {
  }

  lemma NoCosts()
    ensures SumCosts([]) == 0
  {
  }

  lemma QuotedLines(r: RuleSet, u: Usage, at: int)
    requires QuoteOf(r, u, at).Ok?
    ensures var (quote, window, rates) := (QuoteOf(r, u, at).value, WindowFor(r.windows, at), RatesForPromptTotal(r, u.promptTotal).0);
            && Priceable(u, rates, window) && PricedTotal(u, rates, window, 7) <= MAX_INT64
            && quote.receipt.lines == PricedLines(u, rates, window, 7)
            && quote.cost == quote.receipt.total == PricedTotal(u, rates, window, 7)
  {
    RulesPrice(r, u, at);
  }

  /** The price of a usage written out, token count by rate, for a window that covers every class. */
  lemma PriceInFull(u: Usage, rates: Rates, window: Option<Window>, num: int, den: int)
    requires Priceable(u, rates, window) && 0 <= num && 0 < den
    requires forall i | 0 <= i < 7 :: Scale(window, TOKEN_CLASSES[i]) == (num, den)
    ensures u.freshInput >= 0 && u.output >= 0 && u.cacheRead >= 0 && u.cacheRead5m >= 0
            && u.cacheWrite >= 0 && u.cacheWrite5m >= 0 && u.cacheWrite1h >= 0
    ensures PricedTotal(u, rates, window, 7)
         == ExactCost(u.freshInput, rates.input, num, den)
            + ExactCost(u.output, rates.output, num, den)
            + ExactCost(u.cacheRead, rates.cacheRead, num, den)
            + ExactCost(u.cacheRead5m, FirstNonZero(rates.cacheRead5m, rates.cacheRead), num, den)
            + ExactCost(u.cacheWrite, FirstNonZero(rates.cacheWrite, rates.input), num, den)
            + ExactCost(u.cacheWrite5m, FirstNonZero(rates.cacheWrite5m, FirstNonZero(rates.cacheWrite, rates.input)), num, den)
            + ExactCost(u.cacheWrite1h, FirstNonZero(rates.cacheWrite1h, FirstNonZero(rates.cacheWrite, rates.input)), num, den)
  {
    hide ExactCost;
    IsNegativeMeansAField(u);
    forall i | 0 <= i < 7
      ensures PricedTotal(u, rates, window, i + 1) == PricedTotal(u, rates, window, i) + ClassCost(u, rates, window, i)
      ensures Scale(window, TOKEN_CLASSES[i]) == (num, den)
    {
    }
    assert PricedTotal(u, rates, window, 1) == ClassCost(u, rates, window, 0);
    assert PricedTotal(u, rates, window, 2) == PricedTotal(u, rates, window, 1) + ClassCost(u, rates, window, 1);
    assert PricedTotal(u, rates, window, 3) == PricedTotal(u, rates, window, 2) + ClassCost(u, rates, window, 2);
    assert PricedTotal(u, rates, window, 4) == PricedTotal(u, rates, window, 3) + ClassCost(u, rates, window, 3);
    assert PricedTotal(u, rates, window, 5) == PricedTotal(u, rates, window, 4) + ClassCost(u, rates, window, 4);
    assert PricedTotal(u, rates, window, 6) == PricedTotal(u, rates, window, 5) + ClassCost(u, rates, window, 5);
  }

  /** Charging a normalised report: one reality told in two dialects costs the same, and the
      receipt accounts for every prompt token. */
  lemma DialectsCostTheSame(r: RuleSet, at: int, freshTokens: nat, output: Int64, cacheRead: Int64, cacheRead5m: Int64,
                            cacheWrite: Int64, cacheWrite5m: Int64, cacheWrite1h: Int64)
    requires output >= 0 && cacheRead >= 0 && cacheRead5m >= 0
    requires cacheWrite >= 0 && cacheWrite5m >= 0 && cacheWrite1h >= 0
    requires freshTokens + cacheRead + cacheRead5m + cacheWrite + cacheWrite5m + cacheWrite1h <= MAX_INT64
    ensures var total := freshTokens + cacheRead + cacheRead5m + cacheWrite + cacheWrite5m + cacheWrite1h;
            var inclusive := ReportedUsage(total, output, cacheRead, cacheRead5m, cacheWrite, cacheWrite5m, cacheWrite1h);
            var exclusive := ReportedUsage(freshTokens, output, cacheRead, cacheRead5m, cacheWrite, cacheWrite5m, cacheWrite1h);
            var quote := QuoteOf(r, NormalizeUsage(inclusive, Inclusive).0, at);
            && quote == QuoteOf(r, NormalizeUsage(exclusive, Exclusive).0, at)
            && (quote.Ok? ==> PromptTokens(quote.value.receipt.lines) == total)
  {
    hide QuoteOf, NormalizeUsage, PromptTokens, Usage.Conserved;
    DialectsAgree(freshTokens, output, cacheRead, cacheRead5m, cacheWrite, cacheWrite5m, cacheWrite1h);
    var total := freshTokens + cacheRead + cacheRead5m + cacheWrite + cacheWrite5m + cacheWrite1h;
    var u := NormalizeUsage(ReportedUsage(total, output, cacheRead, cacheRead5m, cacheWrite, cacheWrite5m, cacheWrite1h), Inclusive).0;
    if QuoteOf(r, u, at).Ok? {
      ReceiptAddsUp(r, u, at);
    }
  }

  // ---- Re-deriving a charge from its receipt ----

  /** The cost of a line recomputed from the receipt alone. */
  predicate LineRederives(receipt: Receipt, line: PriceLine) {
    CostForTokensScaled(line.tokens, line.rate, receipt.num, receipt.den) == Ok(line.cost)
  }

  predicate Uniform(window: Option<Window>) {
    window.None? || forall class_ | class_ in TOKEN_CLASSES :: Covers(window, class_)
  }

  lemma {:induction false} LinesRederive(u: Usage, rates: Rates, window: Option<Window>, n: nat, receipt: Receipt)
    requires Priceable(u, rates, window) && n <= |TOKEN_CLASSES| && Uniform(window)
    requires PricedTotal(u, rates, window, n) <= MAX_INT64
    requires (receipt.num, receipt.den) == if window.None? then (1, 1) else (window.value.num, window.value.den)
    ensures forall line | line in PricedLines(u, rates, window, n) :: LineRederives(receipt, line)
  {
    if n > 0 {
      ClassStep(u, rates, window, n - 1);
      assert TOKEN_CLASSES[n - 1] in TOKEN_CLASSES;
      LinesRederive(u, rates, window, n - 1, receipt);
      var before, lines := PricedLines(u, rates, window, n - 1), PricedLines(u, rates, window, n);
      forall line | line in lines ensures LineRederives(receipt, line) {
        if line !in before {
          assert line == lines[|lines| - 1];
        }
      }
    }
  }

  /** A receipt re-derives its charge when the window in force covers every class. */
  lemma ReceiptRederives(r: RuleSet, u: Usage, at: int)
    requires QuoteOf(r, u, at).Ok? && Uniform(WindowFor(r.windows, at))
    ensures var receipt := QuoteOf(r, u, at).value.receipt;
            forall line | line in receipt.lines :: LineRederives(receipt, line)
  {
    RulesPrice(r, u, at);
    var window := WindowFor(r.windows, at);
    LinesRederive(u, RatesForPromptTotal(r, u.promptTotal).0, window, 7, QuoteOf(r, u, at).value.receipt);
  }

  /** A charge for a class, if there is one, is the same when recomputed from the receipt. */
  predicate ChargeRederives(rate: Int64, w: Window, class_: TokenClass, tokens: Int64) {
    var charge := CostForTokensScaled(tokens, rate, ScaleFor(w, class_).0, ScaleFor(w, class_).1);
    charge.Ok? ==> CostForTokensScaled(tokens, rate, w.num, w.den) == charge
  }

  /** The charges of a class re-derive, for every rate and every token count, exactly when
      the window covers the class or multiplies by one. */
  lemma ClassRederivesExactly(w: Window, class_: TokenClass)
    requires ValidWindow(w)
    ensures (forall rate: Int64, tokens: Int64 :: ChargeRederives(rate, w, class_, tokens))
            <==> Covers(Some(w), class_) || w.num == w.den
  {
    if Covers(Some(w), class_) || w.num == w.den {
      forall rate: Int64, tokens: Int64 ensures ChargeRederives(rate, w, class_, tokens) {
        if tokens >= 0 && rate >= 0 {
          SameClassCost(tokens, rate, w, class_);
          hide ExactCost, ScaleFor, Covers;
        }
      }
    } else {
      hide ExactCost;
      assert ScaleFor(w, class_) == (1, 1);
      hide ScaleFor;
      MillionAtTheTop(w.num, w.den);
      assert !ChargeRederives(MAX_INT64, w, class_, PER_MILLION);
    }
  }

  /** At the highest rate there is, a million tokens tell every other multiplier from one. */
  lemma MillionAtTheTop(num: Int64, den: Int64)
    requires 0 <= num && 0 < den && num != den
    ensures ExactCost(PER_MILLION, MAX_INT64, 1, 1) == MAX_INT64 != ExactCost(PER_MILLION, MAX_INT64, num, den)
  {
    ExactCostIsLeast(PER_MILLION, MAX_INT64, 1, 1, MAX_INT64);
    ExactCostIsLeast(PER_MILLION, MAX_INT64, 1, 1, MAX_INT64 - 1);
    if num > den {
      DearerMillion(MAX_INT64, num, den);
    } else {
      ProductLeft(MAX_INT64, num, den - 1);
      assert MAX_INT64 * (den - 1) <= (MAX_INT64 - 1) * den;
      ExactCostIsLeast(PER_MILLION, MAX_INT64, num, den, MAX_INT64 - 1);
    }
  }

  lemma DearerMillion(rate: int, num: int, den: int)
    requires 0 < rate && 0 < den < num
    ensures ExactCost(PER_MILLION, rate, num, den) > rate
  {
    ExactCostIsLeast(PER_MILLION, rate, num, den, rate);
    ProductLeftStrict(rate, den, num);
    assert PER_MILLION * rate * num == PER_MILLION * (rate * num);
    assert rate * (PER_MILLION * den) == PER_MILLION * (rate * den);
  }

  lemma SameClassCost(tokens: nat, rate: int, w: Window, class_: TokenClass)
    requires ValidWindow(w) && 0 <= rate && (Covers(Some(w), class_) || w.num == w.den)
    ensures ExactCost(tokens, rate, ScaleFor(w, class_).0, ScaleFor(w, class_).1) == ExactCost(tokens, rate, w.num, w.den)
  {
    if !Covers(Some(w), class_) {
      SameExactCost(tokens, rate, w.den);
    }
  }

  /** A usage with nothing but fresh input has one line. */
  lemma {:induction false} OnlyInputLine(u: Usage, rates: Rates, window: Option<Window>, n: nat)
    requires u == InputUsage(u.promptTotal) && u.promptTotal > 0 && 1 <= n <= 7
    requires Priceable(u, rates, window) && ClassCost(u, rates, window, 0) <= MAX_INT64
    ensures PricedTotal(u, rates, window, n) == ClassCost(u, rates, window, 0)
    ensures PricedLines(u, rates, window, n) == [LineOf(u, rates, window, 0)]
  {
    if n == 1 {
      NoLinesYet(u, rates, window);
      assert PricedTotal(u, rates, window, 1) == ClassCost(u, rates, window, 0);
    } else {
      OnlyInputLine(u, rates, window, n - 1);
      ClassStep(u, rates, window, n - 1);
    }
  }

  /** Outside its scope a window that is not 1x leaves lines that do not re-derive: the
      receipt stores the multiplier but not the classes it applied to. One token at one
      dollar per million, under an output-only 2x window, costs 1000 but re-derives to 2000. */
  lemma PartialWindowDoesNotRederive(at: int)
    requires at != ZERO_TIME
    ensures var w := Window("peak", "", 0, 1440, 127, 2, 1, [Output], 0, None, None);
            var r := RuleSet("rules", Rates(1_000_000_000, 0, 0, 0, 0, 0, 0), [], [w], Inclusive);
            var quote := QuoteOf(r, InputUsage(1), at);
            && quote.Ok? && quote.value.receipt.lines == [PriceLine(InputFresh, 1, 1_000_000_000, 1000)]
            && !LineRederives(quote.value.receipt, quote.value.receipt.lines[0])
  {
    var w := Window("peak", "", 0, 1440, 127, 2, 1, [Output], 0, None, None);
    var r := RuleSet("rules", Rates(1_000_000_000, 0, 0, 0, 0, 0, 0), [], [w], Inclusive);
    assert TOKEN_CLASSES[1] in TOKEN_CLASSES;
    IsNegativeMeansAField(InputUsage(1));
    AllWeekMatches(w, MinuteNumber(at));
    assert ValidRules(r) && Matches(r.windows[0], at);
    WindowForIsBest(r.windows, at);
    hide Matches, WindowFor;
    assert WindowFor(r.windows, at) == Some(w);
    assert RatesForPromptTotal(r, 1).0 == r.base;
    RulesPrice(r, InputUsage(1), at);
    OneTokenLine(InputUsage(1), r.base, w);
    hide ValidRules, Priceable, PricedTotal, PricedLines, RatesForPromptTotal, ExactCost;
    QuotedLines(r, InputUsage(1), at);
    WholeThousand();
  }

  lemma OneTokenLine(u: Usage, rates: Rates, w: Window)
    requires u == InputUsage(1) && rates == Rates(1_000_000_000, 0, 0, 0, 0, 0, 0) && w.appliesTo == [Output]
    requires Priceable(u, rates, Some(w))
    ensures PricedTotal(u, rates, Some(w), 7) == 1000
    ensures PricedLines(u, rates, Some(w), 7) == [PriceLine(InputFresh, 1, 1_000_000_000, 1000)]
  {
    WholeThousand();
    assert ClassCost(u, rates, Some(w), 0) == 1000;
    OnlyInputLine(u, rates, Some(w), 7);
  }

  lemma WholeThousand()
    ensures ExactCost(1, 1_000_000_000, 1, 1) == 1000 && ExactCost(1, 1_000_000_000, 2, 1) == 2000
  {
  }

  // ---- The settled cost against the admitted ceiling ----

  predicate CacheNotDearer(rates: Rates) {
    forall class_ | class_ in {CacheRead, CacheRead5m, CacheWrite, CacheWrite5m, CacheWrite1h} ::
      rates.RateFor(class_) <= rates.input
  }

  /** The total of the first n classes against one prompt line at the input rate: each
      class after the first two may round up once more. */
  lemma {:induction false} SplitCostsOneNanoPerLine(u: Usage, rates: Rates, window: Option<Window>, num: int, den: int, n: nat)
    requires Priceable(u, rates, window) && CacheNotDearer(rates) && 0 <= num && 0 < den
    requires forall i | 0 <= i < 7 :: Scale(window, TOKEN_CLASSES[i]) == (num, den)
    requires 2 <= n <= 7
    ensures PromptPrefix(u, n) >= 0 && u.output >= 0
    ensures PricedTotal(u, rates, window, n)
         <= ExactCost(PromptPrefix(u, n), rates.input, num, den) + ExactCost(u.output, rates.output, num, den) + (n - 2)
  {
    IsNegativeMeansAField(u);
    hide ExactCost;
    if n == 2 {
      assert PricedTotal(u, rates, window, 1) == ClassCost(u, rates, window, 0);
      assert PromptPrefix(u, 1) == u.freshInput;
      assert Scale(window, TOKEN_CLASSES[0]) == Scale(window, TOKEN_CLASSES[1]) == (num, den);
    } else {
      SplitCostsOneNanoPerLine(u, rates, window, num, den, n - 1);
      var class_ := TOKEN_CLASSES[n - 1];
      assert Scale(window, class_) == (num, den);
      CostMonotone(u.TokensFor(class_), rates.RateFor(class_), u.TokensFor(class_), rates.input, num, den);
      CostNearlyAdditive(PromptPrefix(u, n - 1), u.TokensFor(class_), rates.input, num, den);
    }
  }

  /** The quoted usage has a prompt line and an output line and nothing else. */
  lemma {:induction false} QuotedTotal(bound: Int64, allowance: Int64, rates: Rates, window: Option<Window>, num: int, den: int, n: nat)
    requires Priceable(InputUsage(bound).(output := allowance), rates, window) && 0 <= num && 0 < den
    requires forall i | 0 <= i < 7 :: Scale(window, TOKEN_CLASSES[i]) == (num, den)
    requires 2 <= n <= 7
    ensures 0 <= bound && 0 <= allowance
    ensures PricedTotal(InputUsage(bound).(output := allowance), rates, window, n)
         == ExactCost(bound, rates.input, num, den) + ExactCost(allowance, rates.output, num, den)
  {
    var quoted := InputUsage(bound).(output := allowance);
    IsNegativeMeansAField(quoted);
    if n == 2 {
      assert PricedTotal(quoted, rates, window, 1) == ClassCost(quoted, rates, window, 0);
      assert Scale(window, TOKEN_CLASSES[0]) == Scale(window, TOKEN_CLASSES[1]) == (num, den);
    } else {
      QuotedTotal(bound, allowance, rates, window, num, den, n - 1);
      ClassStep(quoted, rates, window, n - 1);
    }
  }

  /** The cap at settlement only trims rounding: an actual usage within the quoted prompt
      bound and output allowance costs at most five nano-USD more than the quote. */
  lemma SettledCostExceedsQuoteByRounding(r: RuleSet, actual: Usage, bound: Int64, allowance: Int64, at: int)
    requires ValidRules(r) && TiersRise(r) && Uniform(WindowFor(r.windows, at))
    requires actual.Conserved() && actual.promptTotal <= bound && actual.output <= allowance
    requires CacheNotDearer(RatesForPromptTotal(r, actual.promptTotal).0)
    ensures !InputUsage(bound).(output := allowance).IsNegative()
    ensures TotalOf(r, actual, at) <= TotalOf(r, InputUsage(bound).(output := allowance), at) + 5
  {
    var quoted := InputUsage(bound).(output := allowance);
    IsNegativeMeansAField(actual);
    IsNegativeMeansAField(quoted);
    RulesPrice(r, actual, at);
    RulesPrice(r, quoted, at);
    SmallerPromptIsNotDearer(r, actual.promptTotal, bound);
    var window := WindowFor(r.windows, at);
    var (num, den) := if window.None? then (1, 1) else (window.value.num, window.value.den);
    var rates, rates' := RatesForPromptTotal(r, actual.promptTotal).0, RatesForPromptTotal(r, bound).0;
    forall i | 0 <= i < 7 ensures Scale(window, TOKEN_CLASSES[i]) == (num, den) {
      assert TOKEN_CLASSES[i] in TOKEN_CLASSES;
    }
    PromptPrefixInFull(actual);
    SplitCostsOneNanoPerLine(actual, rates, window, num, den, 7);
    QuotedTotal(bound, allowance, rates', window, num, den, 7);
    CostMonotone(actual.promptTotal, rates.input, bound, rates'.input, num, den);
    CostMonotone(actual.output, rates.output, allowance, rates'.output, num, den);
  }

  /** Five is reached: one token in each of the six prompt classes at one nano-USD per
      million costs six, where the quote for six prompt tokens is one. */
  lemma FiveNanosAreReached(at: int)
    ensures var r := RuleSet("rules", Rates(1, 0, 1, 0, 0, 0, 0), [], [], Inclusive);
            var actual := Usage(6, 1, 0, 1, 1, 1, 1, 1);
            && ValidRules(r) && TiersRise(r) && actual.Conserved() && CacheNotDearer(r.base)
            && actual.promptTotal == 6 && actual.output == 0 && !InputUsage(6).IsNegative()
            && TotalOf(r, actual, at) == TotalOf(r, InputUsage(6), at) + 5
  {
    var r := RuleSet("rules", Rates(1, 0, 1, 0, 0, 0, 0), [], [], Inclusive);
    var actual := Usage(6, 1, 0, 1, 1, 1, 1, 1);
    assert ValidRules(r) && TiersRise(r) && WindowFor(r.windows, at) == None;
    hide PricedTotal, Priceable, CacheNotDearer, ExactCost, Usage.Conserved, ValidRules, TiersRise, WindowFor;
    OneEachIsPriceable(actual, r.base);
    OneToken();
    QuotedTotal(6, 0, r.base, None, 1, 1, 7);
    OneEach(actual, r.base, 7);
  }

  lemma OneEachIsPriceable(u: Usage, rates: Rates)
    requires u == Usage(6, 1, 0, 1, 1, 1, 1, 1) && rates == Rates(1, 0, 1, 0, 0, 0, 0)
    ensures u.Conserved() && CacheNotDearer(rates) && Priceable(u, rates, None) && Priceable(InputUsage(6), rates, None)
  {
    IsNegativeMeansAField(u);
    IsNegativeMeansAField(InputUsage(6));
  }

  lemma {:induction false} OneEach(u: Usage, rates: Rates, n: nat)
    requires u == Usage(6, 1, 0, 1, 1, 1, 1, 1) && rates == Rates(1, 0, 1, 0, 0, 0, 0) && n <= 7
    requires Priceable(u, rates, None)
    ensures PricedTotal(u, rates, None, n) == if n < 2 then n else n - 1
  {
    if n > 0 {
      OneEach(u, rates, n - 1);
      OneCost(u, rates, n - 1);
      hide ClassCost, Priceable;
    }
  }

  lemma OneCost(u: Usage, rates: Rates, i: nat)
    requires u == Usage(6, 1, 0, 1, 1, 1, 1, 1) && rates == Rates(1, 0, 1, 0, 0, 0, 0) && i < 7
    requires Priceable(u, rates, None)
    ensures ClassCost(u, rates, None, i) == if i == 1 then 0 else 1
  {
    hide ExactCost;
    OneToken();
    assert TOKEN_CLASSES[1] == Output;
  }

  lemma OneToken()
    ensures ExactCost(1, 1, 1, 1) == 1 && ExactCost(0, 0, 1, 1) == 0 && ExactCost(1, 0, 1, 1) == 0
    ensures ExactCost(6, 1, 1, 1) == 1
  {
  }
}
