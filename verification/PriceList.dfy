/** The public price list (proxy/pricing_endpoint.go) against the charges it announces. */
module PriceList {
  import opened Common
  import opened Money
  import opened Usage
  import opened Windows
  import opened Rules

  datatype PricingRate = PricingRate(class_: TokenClass, nanoPerMillion: Int64, inherited: bool)

  /** The price of one million tokens of a class under the window. */
  method ScaledRatePerMillion(rate: Int64, class_: TokenClass, window: Window) returns (r: Result<int>)
    ensures r == CostForTokensScaled(PER_MILLION, rate, ScaleFor(window, class_).0, ScaleFor(window, class_).1)
  {
    var num, den := window.num, window.den;
    if |window.appliesTo| > 0 {
      num, den := 1, 1;
      for i := 0 to |window.appliesTo|
        invariant num == 1 && den == 1 && class_ !in window.appliesTo[..i]
      {
        if window.appliesTo[i] == class_ {
          num, den := window.num, window.den;
          assert class_ in window.appliesTo;
          break;
        }
      }
    }
    r := CostForTokensScaled(PER_MILLION, rate, num, den);
  }

  predicate InheritedClass(rates: Rates, class_: TokenClass) {
    match class_
    case CacheRead5m => rates.cacheRead5m == 0
    case CacheWrite5m => rates.cacheWrite5m == 0
    case CacheWrite1h => rates.cacheWrite1h == 0
    case CacheWrite => rates.cacheWrite == 0
    case _ => false
  }

  /** The class whose price a marked class falls back to. */
  function Fallback(class_: TokenClass): TokenClass {
    match class_
    case CacheRead5m => CacheRead
    case CacheWrite5m => CacheWrite
    case CacheWrite1h => CacheWrite
    case CacheWrite => InputFresh
    case _ => class_
  }

  /** The rate configured for a class itself. */
  function OwnRate(rates: Rates, class_: TokenClass): Int64 {
    match class_
    case InputFresh => rates.input
    case Output => rates.output
    case CacheRead => rates.cacheRead
    case CacheRead5m => rates.cacheRead5m
    case CacheWrite => rates.cacheWrite
    case CacheWrite5m => rates.cacheWrite5m
    case CacheWrite1h => rates.cacheWrite1h
    case Unknown(_) => 0
  }

  /** A class is charged its fallback's rate when the list marks it as inherited, which a
      rate configured as zero also is, and its own configured rate otherwise. */
  lemma InheritedIsFallback(rates: Rates, class_: TokenClass)
    ensures rates.RateFor(class_)
         == if InheritedClass(rates, class_) then rates.RateFor(Fallback(class_)) else OwnRate(rates, class_)
    ensures InheritedClass(rates, class_) ==> Fallback(class_) != class_ && OwnRate(rates, class_) == 0
  {
  }

  /** What the list shows: the scaled rate, or the bare rate where scaling fails. */
  function PublishedRate(rates: Rates, window: Option<Window>, class_: TokenClass): int {
    var rate := rates.RateFor(class_);
    if window.None? then rate
    else
      match CostForTokensScaled(PER_MILLION, rate, ScaleFor(window.value, class_).0, ScaleFor(window.value, class_).1)
      case Ok(scaled) => scaled
      case Err(_) => rate
  }

  method RatesView(rates: Rates, window: Option<Window>) returns (view: seq<PricingRate>)
    ensures |view| == |TOKEN_CLASSES|
    ensures forall i | 0 <= i < |view| ::
              view[i] == PricingRate(TOKEN_CLASSES[i], PublishedRate(rates, window, TOKEN_CLASSES[i]),
                                     InheritedClass(rates, TOKEN_CLASSES[i]))
  {
    view := [];
    for i := 0 to |TOKEN_CLASSES|
      invariant |view| == i
      invariant forall k | 0 <= k < i ::
                  view[k] == PricingRate(TOKEN_CLASSES[k], PublishedRate(rates, window, TOKEN_CLASSES[k]),
                                         InheritedClass(rates, TOKEN_CLASSES[k]))
    {
      var class_ := TOKEN_CLASSES[i];
      var scaled := rates.RateFor(class_);
      if window.Some? {
        var cost := ScaledRatePerMillion(rates.RateFor(class_), class_, window.value);
        if cost.Ok? {
          scaled := cost.value;
        }
      }
      view := view + [PricingRate(class_, scaled, InheritedClass(rates, class_))];
    }
  }

  predicate ScaledRateFits(rates: Rates, window: Window, class_: TokenClass)
    requires rates.IsValid() && ValidWindow(window)
  {
    ValidRatesPriceNonNegatively(rates, class_);
    ExactCost(PER_MILLION, rates.RateFor(class_), ScaleFor(window, class_).0, ScaleFor(window, class_).1) <= MAX_INT64
  }

  lemma PublishedRateMeans(rates: Rates, window: Window, class_: TokenClass)
    requires rates.IsValid() && ValidWindow(window)
    ensures var rate, (num, den) := rates.RateFor(class_), ScaleFor(window, class_);
            && 0 <= rate && 0 <= num && 0 < den
            && PublishedRate(rates, Some(window), class_)
               == if ScaledRateFits(rates, window, class_) then ExactCost(PER_MILLION, rate, num, den) else rate
  {
    ValidRatesPriceNonNegatively(rates, class_);
  }

  /** A token count the code charges for at all, and charges more than the listed rate announces. */
  predicate UnderQuoted(rates: Rates, window: Window, class_: TokenClass, tokens: Int64)
    requires rates.IsValid() && ValidWindow(window)
  {
    PublishedRateMeans(rates, window, class_);
    var (num, den) := ScaleFor(window, class_);
    var charge := CostForTokensScaled(tokens, rates.RateFor(class_), num, den);
    charge.Ok? && 0 <= tokens && ExactCost(tokens, PublishedRate(rates, Some(window), class_), 1, 1) < charge.value
  }

  /** While the scaled rate of a million tokens fits int64 the list never under-quotes, for any
      token count. It under-quotes some charge exactly when that rate does not fit, so that
      the bare rate is shown, and yet one token can be charged for. */
  lemma ListNeverUnderQuotes(rates: Rates, window: Window, class_: TokenClass)
    requires rates.IsValid() && ValidWindow(window)
    ensures rates.RateFor(class_) >= 0 && PublishedRate(rates, Some(window), class_) >= 0
    ensures ScaledRateFits(rates, window, class_) ==>
              forall tokens: nat ::
                ExactCost(tokens, rates.RateFor(class_), ScaleFor(window, class_).0, ScaleFor(window, class_).1)
                <= ExactCost(tokens, PublishedRate(rates, Some(window), class_), 1, 1)
    ensures (exists tokens: Int64 :: UnderQuoted(rates, window, class_, tokens))
            <==> !ScaledRateFits(rates, window, class_)
                 && ExactCost(1, rates.RateFor(class_), ScaleFor(window, class_).0, ScaleFor(window, class_).1) <= MAX_INT64
  {
    hide ExactCost, ScaledRateFits, PublishedRate, UnderQuoted, ScaleFor, Rates.RateFor;
    PublishedRateMeans(rates, window, class_);
    var (num, den) := ScaleFor(window, class_);
    var rate := rates.RateFor(class_);
    ScaledRateFitsMeans(rates, window, class_);
    if ScaledRateFits(rates, window, class_) {
      forall tokens: nat
        ensures ExactCost(tokens, rate, num, den) <= ExactCost(tokens, PublishedRate(rates, Some(window), class_), 1, 1)
      {
        ScaledRateCovers(tokens, rate, num, den, PublishedRate(rates, Some(window), class_));
      }
    }
    forall tokens: Int64 | UnderQuoted(rates, window, class_, tokens)
      ensures !ScaledRateFits(rates, window, class_) && ExactCost(1, rate, num, den) <= MAX_INT64
    {
      UnderQuotedMeans(rates, window, class_, tokens);
      if tokens == 0 {
        ExactCostIsLeast(0, rate, num, den, 0);
      } else {
        CostMonotone(1, rate, tokens, rate, num, den);
      }
    }
    if !ScaledRateFits(rates, window, class_) && ExactCost(1, rate, num, den) <= MAX_INT64 {
      var tokens := DearerCount(rate, num, den);
      UnderQuotedMeans(rates, window, class_, tokens);
    }
  }

  lemma ScaledRateFitsMeans(rates: Rates, window: Window, class_: TokenClass)
    requires rates.IsValid() && ValidWindow(window)
    ensures var rate, (num, den) := rates.RateFor(class_), ScaleFor(window, class_);
            0 <= rate && (ScaledRateFits(rates, window, class_) <==> ExactCost(PER_MILLION, rate, num, den) <= MAX_INT64)
  {
    ValidRatesPriceNonNegatively(rates, class_);
  }

  lemma UnderQuotedMeans(rates: Rates, window: Window, class_: TokenClass, tokens: Int64)
    requires rates.IsValid() && ValidWindow(window)
    ensures var rate, shown, (num, den) := rates.RateFor(class_), PublishedRate(rates, Some(window), class_), ScaleFor(window, class_);
            && 0 <= rate && 0 <= shown
            && (UnderQuoted(rates, window, class_, tokens) <==>
                && 0 <= tokens && ExactCost(tokens, rate, num, den) <= MAX_INT64
                && ExactCost(tokens, shown, 1, 1) < ExactCost(tokens, rate, num, den))
  {
    hide ExactCost, PublishedRate;
    PublishedRateMeans(rates, window, class_);
  }

  /** Where a scaled rate leaves int64, either 999,999 tokens or a single one are charged
      more than the bare rate announces. */
  lemma DearerCount(rate: Int64, num: Int64, den: Int64) returns (tokens: nat)
    requires 0 <= rate && 0 <= num && 0 < den
    requires ExactCost(PER_MILLION, rate, num, den) > MAX_INT64 && ExactCost(1, rate, num, den) <= MAX_INT64
    ensures tokens <= PER_MILLION && ExactCost(tokens, rate, num, den) <= MAX_INT64
    ensures ExactCost(tokens, rate, 1, 1) < ExactCost(tokens, rate, num, den)
  {
    hide ExactCost;
    var excess := rate * num - rate * den;
    OverflowMeansExcess(rate, num, den);
    if ExactCost(PER_MILLION - 1, rate, num, den) <= MAX_INT64 {
      tokens := PER_MILLION - 1;
      ProductLeftStrict(PER_MILLION - 1, den, excess);
    } else {
      tokens := 1;
      LargeExcess(rate, num, den);
    }
    ExcessIsCharged(tokens, rate, num, den, excess);
  }

  lemma OverflowMeansExcess(rate: Int64, num: Int64, den: Int64)
    requires 0 <= rate && 0 <= num && 0 < den && ExactCost(PER_MILLION, rate, num, den) > MAX_INT64
    ensures rate * num - rate * den > den
  {
    ExactCostIsLeast(PER_MILLION, rate, num, den, MAX_INT64);
    assert rate * num > MAX_INT64 * den;
    if rate < MAX_INT64 {
      assert MAX_INT64 * den - rate * den == (MAX_INT64 - rate) * den;
      ProductLeft(den, 1, MAX_INT64 - rate);
    } else {
      assert num > den;
      assert rate * num - rate * den == rate * (num - den);
      ProductLeft(rate, 1, num - den);
    }
  }

  lemma LargeExcess(rate: Int64, num: Int64, den: Int64)
    requires 0 <= rate && 0 <= num && 0 < den && ExactCost(PER_MILLION - 1, rate, num, den) > MAX_INT64
    ensures rate * num - rate * den > (PER_MILLION - 1) * den
  {
    ExactCostIsLeast(PER_MILLION - 1, rate, num, den, MAX_INT64);
    var p := rate * num;
    assert (PER_MILLION - 1) * rate * num == (PER_MILLION - 1) * p;
    assert MAX_INT64 * (PER_MILLION * den) == MAX_INT64 * PER_MILLION * den;
    ProductLeft(den, rate, MAX_INT64);
  }

  /** An excess of more than 999,999 denominators over the bare rate survives every rounding. */
  lemma ExcessIsCharged(tokens: nat, rate: int, num: int, den: int, excess: int)
    requires 0 <= rate && 0 <= num && 0 < den && excess == rate * num - rate * den
    requires tokens * excess > (PER_MILLION - 1) * den
    ensures ExactCost(tokens, rate, 1, 1) < ExactCost(tokens, rate, num, den)
  {
    var q := ExactCost(tokens, rate, 1, 1);
    CostWithinOneNano(tokens, rate, 1, 1);
    assert q * PER_MILLION <= tokens * rate + (PER_MILLION - 1);
    ProductLeft(den, q * PER_MILLION, tokens * rate + (PER_MILLION - 1));
    assert tokens * rate * num == tokens * (rate * den) + tokens * excess;
    assert (tokens * rate) * den == tokens * (rate * den);
    Regroup(q, den);
    ExactCostIsLeast(tokens, rate, num, den, q);
  }

  /** Such a charge exists: one token at 2^62 nano-USD per million under an eightfold window. */
  lemma OneTokenIsUnderQuoted()
    ensures var rates := Rates(0x4000_0000_0000_0000, 0, 0, 0, 0, 0, 0);
            var window := Window("peak", "", 0, 1440, 127, 8, 1, [], 0, None, None);
            && rates.IsValid() && ValidWindow(window) && UnderQuoted(rates, window, InputFresh, 1)
  {
  }

  lemma ScaledRateCovers(tokens: nat, rate: int, num: int, den: int, shown: int)
    requires 0 <= rate && 0 <= num && 0 < den && shown == ExactCost(PER_MILLION, rate, num, den)
    ensures ExactCost(tokens, rate, num, den) <= ExactCost(tokens, shown, 1, 1)
  {
    ExactCostIsLeast(PER_MILLION, rate, num, den, shown);
    assert PER_MILLION * rate * num == PER_MILLION * (rate * num);
    Regroup(shown, den);
    assert rate * num <= shown * den;
    CostAtUnitPrice(tokens, rate, num, den, shown);
  }

  lemma CostAtUnitPrice(tokens: nat, rate: int, num: int, den: int, shown: int)
    requires 0 <= rate && 0 <= num && 0 < den && 0 <= shown && rate * num <= shown * den
    ensures ExactCost(tokens, rate, num, den) <= ExactCost(tokens, shown, 1, 1)
  {
    var q := ExactCost(tokens, shown, 1, 1);
    ExactCostIsLeast(tokens, shown, 1, 1, q);
    ExactCostIsLeast(tokens, rate, num, den, q);
    calc {
      tokens * rate * num;
      tokens * (rate * num);
      <= { ProductLeft(tokens, rate * num, shown * den); }
      tokens * (shown * den);
      den * (tokens * shown);
      <= { ProductLeft(den, tokens * shown, q * PER_MILLION); }
      den * (q * PER_MILLION);
      q * (PER_MILLION * den);
    }
  }
}
