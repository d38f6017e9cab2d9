/** Price rules: rates with their inheritance chain, context tiers, validation and the
    canonical form built by New (pricing/pricing.go). */
module Rules {
  import opened Money
  import opened Usage
  import opened Windows
  import opened Sorting

  datatype Rates = Rates(
    input: Int64, output: Int64, cacheRead: Int64, cacheWrite: Int64,
    cacheRead5m: Int64, cacheWrite5m: Int64, cacheWrite1h: Int64)
  {
    /** A zero rate is skipped, so a class configured as free still inherits. */
    function RateFor(class_: TokenClass): Int64 {
      match class_
      case InputFresh => input
      case Output => output
      case CacheRead => cacheRead
      case CacheRead5m => FirstNonZero(cacheRead5m, cacheRead)
      case CacheWrite => EffectiveCacheWrite()
      case CacheWrite5m => FirstNonZero(cacheWrite5m, EffectiveCacheWrite())
      case CacheWrite1h => FirstNonZero(cacheWrite1h, EffectiveCacheWrite())
      case Unknown(_) => 0
    }

    function EffectiveCacheWrite(): Int64 {
      FirstNonZero(cacheWrite, input)
    }

    predicate IsValid() {
      input >= 0 && output >= 0 && cacheRead >= 0 && cacheWrite >= 0
      && cacheRead5m >= 0 && cacheWrite5m >= 0 && cacheWrite1h >= 0
    }
  }

  function FirstNonZero(a: Int64, b: Int64): Int64 {
    if a != 0 then a else b
  }

  lemma ValidRatesPriceNonNegatively(r: Rates, class_: TokenClass)
    requires r.IsValid()
    ensures r.RateFor(class_) >= 0
  {
  }

  datatype Tier = Tier(minExclusive: Int64, rates: Rates)

  /** The receipt's tier marker when no tier applied. */
  const BASE_TIER_THRESHOLD: Int64 := -1

  datatype RuleSet = RuleSet(id: string, base: Rates, tiers: seq<Tier>, windows: seq<Window>, accounting: PromptAccounting)

  /** What Validate demands of a rule set, in the order it is stored. */
  predicate ValidRules(r: RuleSet) {
    && r.id != ""
    && !r.accounting.OtherMode?
    && r.base.IsValid()
    && (forall i | 0 <= i < |r.tiers| :: r.tiers[i].minExclusive >= 0 && r.tiers[i].rates.IsValid())
    && (forall i, j | 0 <= i < j < |r.tiers| :: r.tiers[i].minExclusive < r.tiers[j].minExclusive)
    && (forall i | 0 <= i < |r.windows| :: ValidWindow(r.windows[i]))
    && UniqueIds(r.windows)
  }

  /** The validation pass: neighbouring thresholds and a set of seen window ids are enough. */
  method Validate(r: RuleSet) returns (ok: bool)
    ensures ok <==> ValidRules(r)
  {
    if r.id == "" || r.accounting.OtherMode? || !r.base.IsValid() {
      return false;
    }
    var previous: int := -1;
    for i := 0 to |r.tiers|
      invariant forall k | 0 <= k < i :: 0 <= r.tiers[k].minExclusive <= previous && r.tiers[k].rates.IsValid()
      invariant forall j, k | 0 <= j < k < i :: r.tiers[j].minExclusive < r.tiers[k].minExclusive
      invariant previous == if i == 0 then -1 else r.tiers[i - 1].minExclusive
    {
      var tier := r.tiers[i];
      if tier.minExclusive < 0 || tier.minExclusive <= previous || !tier.rates.IsValid() {
        return false;
      }
      previous := tier.minExclusive;
    }
    var seen: set<string> := {};
    for i := 0 to |r.windows|
      invariant seen == set k | 0 <= k < i :: r.windows[k].id
      invariant forall k | 0 <= k < i :: ValidWindow(r.windows[k])
      invariant forall j, k | 0 <= j < k < i :: r.windows[j].id != r.windows[k].id
    {
      var window := r.windows[i];
      if !ValidWindow(window) || window.id in seen {
        return false;
      }
      seen := seen + {window.id};
    }
    return true;
  }

  // ---- New: sorting into canonical form ----

  datatype Spec = Spec(id: string, base: Rates, tiers: seq<Tier>, windows: seq<Window>, accounting: PromptAccounting)

  predicate LowerTier(a: Tier, b: Tier) {
    a.minExclusive < b.minExclusive
  }

  function Build(spec: Spec, tiers: seq<Tier>, windows: seq<Window>): RuleSet {
    RuleSet(spec.id, spec.base, tiers, windows, if spec.accounting.Unset? then Inclusive else spec.accounting)
  }

  datatype NewResult = Accepted(rules: RuleSet) | Refused

  /** New, given whatever order sort.Slice produced for the two slices. */
  function NewSorted(spec: Spec, tiers: seq<Tier>, windows: seq<Window>): NewResult {
    var rules := Build(spec, tiers, windows);
    if ValidRules(rules) then Accepted(rules) else Refused
  }

  function New(spec: Spec): NewResult {
    NewSorted(spec, SortBy(spec.tiers, LowerTier), SortBy(spec.windows, Beats))
  }

  lemma TierOrder()
    ensures StrictWeakOrder(LowerTier)
  {
  }

  lemma WindowOrder()
    ensures StrictWeakOrder(Beats)
  {
    forall x, y ensures Beats(x, y) ==> !Beats(y, x) {
      BeatsIsTotal(x, y);
    }
    forall x, y, z | !Beats(y, x) && !Beats(z, y) ensures !Beats(z, x) {
      BeatsIsTotal(x, y);
      BeatsIsTotal(y, z);
      if Beats(z, x) && Beats(x, y) {
        BeatsIsTransitive(z, x, y);
      }
    }
  }

  lemma ValidMeansStrict(r: RuleSet)
    requires Sorted(r.windows, Beats) && UniqueIds(r.windows)
    ensures StrictlySorted(r.windows, Beats)
  {
    forall i, j | 0 <= i < j < |r.windows| ensures Beats(r.windows[i], r.windows[j]) {
      BeatsIsTotal(r.windows[i], r.windows[j]);
    }
  }

  /** Any two sort results of permuted tiers and windows are accepted together, as the
      same rule set, or refused together. */
  lemma NewIsCanonical(spec: Spec, spec': Spec, tiers: seq<Tier>, tiers': seq<Tier>,
                       windows: seq<Window>, windows': seq<Window>)
    requires spec' == spec.(tiers := spec'.tiers, windows := spec'.windows)
    requires multiset(spec.tiers) == multiset(spec'.tiers) && multiset(spec.windows) == multiset(spec'.windows)
    requires IsSortOf(tiers, spec.tiers, LowerTier) && IsSortOf(tiers', spec'.tiers, LowerTier)
    requires IsSortOf(windows, spec.windows, Beats) && IsSortOf(windows', spec'.windows, Beats)
    ensures NewSorted(spec, tiers, windows) == NewSorted(spec', tiers', windows')
  {
    if NewSorted(spec, tiers, windows).Accepted? {
      AcceptedForm(spec, tiers, tiers', windows, windows');
    } else if NewSorted(spec', tiers', windows').Accepted? {
      AcceptedForm(spec', tiers', tiers, windows', windows);
    }
  }

  lemma AcceptedForm(spec: Spec, tiers: seq<Tier>, tiers': seq<Tier>, windows: seq<Window>, windows': seq<Window>)
    requires ValidRules(Build(spec, tiers, windows))
    requires multiset(tiers) == multiset(tiers') && multiset(windows) == multiset(windows')
    requires Sorted(tiers', LowerTier) && Sorted(windows, Beats) && Sorted(windows', Beats)
    ensures tiers == tiers' && windows == windows'
  {
    TierOrder();
    WindowOrder();
    ValidMeansStrict(Build(spec, tiers, windows));
    StrictnessIsShared(tiers, tiers', LowerTier);
    StrictSortIsUnique(tiers, tiers', LowerTier);
    StrictnessIsShared(windows, windows', Beats);
    StrictSortIsUnique(windows, windows', Beats);
  }

  /** New answers the same for every permutation of its configuration, whatever order the
      library sort gives to equal keys, and an accepted rule set holds its windows sorted. */
  lemma NewIgnoresOrder(spec: Spec, spec': Spec, tiers: seq<Tier>, windows: seq<Window>)
    requires spec' == spec.(tiers := spec'.tiers, windows := spec'.windows)
    requires multiset(spec.tiers) == multiset(spec'.tiers) && multiset(spec.windows) == multiset(spec'.windows)
    requires IsSortOf(tiers, spec'.tiers, LowerTier) && IsSortOf(windows, spec'.windows, Beats)
    ensures New(spec) == NewSorted(spec', tiers, windows)
    ensures New(spec).Accepted? ==> SortedWindows(New(spec).rules.windows)
  {
    TierOrder();
    WindowOrder();
    SortBySorts(spec.tiers, LowerTier);
    SortBySorts(spec.windows, Beats);
    NewIsCanonical(spec, spec', SortBy(spec.tiers, LowerTier), tiers, SortBy(spec.windows, Beats), windows);
  }

  // ---- Context tiers ----

  function TierFrom(tiers: seq<Tier>, prompt: int, selected: Rates, threshold: Int64): (Rates, Int64) {
    if tiers == [] || prompt <= tiers[0].minExclusive then (selected, threshold)
    else TierFrom(tiers[1..], prompt, tiers[0].rates, tiers[0].minExclusive)
  }

  function RatesForPromptTotal(r: RuleSet, prompt: int): (Rates, Int64) {
    TierFrom(r.tiers, prompt, r.base, BASE_TIER_THRESHOLD)
  }

  method SelectTier(r: RuleSet, prompt: int) returns (selected: Rates, threshold: Int64)
    ensures (selected, threshold) == RatesForPromptTotal(r, prompt)
  {
    selected, threshold := r.base, BASE_TIER_THRESHOLD;
    var i := 0;
    while i < |r.tiers|
      invariant 0 <= i <= |r.tiers|
      invariant TierFrom(r.tiers[i..], prompt, selected, threshold) == RatesForPromptTotal(r, prompt)
    {
      assert r.tiers[i..][1..] == r.tiers[i + 1..];
      if prompt <= r.tiers[i].minExclusive {
        break;
      }
      selected, threshold := r.tiers[i].rates, r.tiers[i].minExclusive;
      i := i + 1;
    }
  }

  predicate IsTierOf(r: RuleSet, i: int, prompt: int) {
    && 0 <= i < |r.tiers| && r.tiers[i].minExclusive < prompt
    && forall j | 0 <= j < |r.tiers| && r.tiers[j].minExclusive < prompt :: r.tiers[j].minExclusive <= r.tiers[i].minExclusive
  }

  /** The chosen tier is the one with the greatest threshold strictly below the prompt
      total; the base rates apply exactly when there is none. */
  lemma TierIsGreatestBelow(r: RuleSet, prompt: int)
    requires ValidRules(r)
    ensures var (rates, threshold) := RatesForPromptTotal(r, prompt);
            && rates.IsValid()
            && (threshold == BASE_TIER_THRESHOLD ==>
                rates == r.base && forall j | 0 <= j < |r.tiers| :: prompt <= r.tiers[j].minExclusive)
            && (threshold != BASE_TIER_THRESHOLD ==>
                exists i :: IsTierOf(r, i, prompt) && r.tiers[i] == Tier(threshold, rates))
  {
    var n := TierCut(r, prompt, 0, r.base, BASE_TIER_THRESHOLD);
    assert r.tiers[0..] == r.tiers;
    if n > 0 {
      assert IsTierOf(r, n - 1, prompt);
      assert r.tiers[n - 1] == Tier(r.tiers[n - 1].minExclusive, r.tiers[n - 1].rates);
    }
  }

  /** The loop stops in front of the first threshold the prompt does not exceed. */
  lemma {:induction false} TierCut(r: RuleSet, prompt: int, i: nat, selected: Rates, threshold: Int64) returns (n: nat)
    requires ValidRules(r) && i <= |r.tiers|
    requires forall j | 0 <= j < i :: r.tiers[j].minExclusive < prompt
    ensures i <= n <= |r.tiers|
    ensures forall j | 0 <= j < n :: r.tiers[j].minExclusive < prompt
    ensures forall j | n <= j < |r.tiers| :: prompt <= r.tiers[j].minExclusive
    ensures TierFrom(r.tiers[i..], prompt, selected, threshold)
         == if n == i then (selected, threshold) else (r.tiers[n - 1].rates, r.tiers[n - 1].minExclusive)
    decreases |r.tiers| - i
  {
    n := i;
    if i < |r.tiers| && prompt > r.tiers[i].minExclusive {
      assert r.tiers[i..][1..] == r.tiers[i + 1..];
      n := TierCut(r, prompt, i + 1, r.tiers[i].rates, r.tiers[i].minExclusive);
    }
  }

  /** Longer contexts are priced at least as high, in the input and the output class. */
  predicate DearerOrEqual(a: Rates, b: Rates) {
    a.input <= b.input && a.output <= b.output
  }

  predicate TiersRise(r: RuleSet) {
    && (forall i | 0 <= i < |r.tiers| :: DearerOrEqual(r.base, r.tiers[i].rates))
    && (forall i, j | 0 <= i < j < |r.tiers| :: DearerOrEqual(r.tiers[i].rates, r.tiers[j].rates))
  }

  /** With rising tiers a smaller prompt never meets dearer input or output rates. */
  lemma SmallerPromptIsNotDearer(r: RuleSet, prompt: int, bound: int)
    requires ValidRules(r) && TiersRise(r) && prompt <= bound
    ensures DearerOrEqual(RatesForPromptTotal(r, prompt).0, RatesForPromptTotal(r, bound).0)
  {
    TierIsGreatestBelow(r, prompt);
    TierIsGreatestBelow(r, bound);
    var (rates, threshold) := RatesForPromptTotal(r, prompt);
    var (rates', threshold') := RatesForPromptTotal(r, bound);
    if threshold != BASE_TIER_THRESHOLD {
      var i :| IsTierOf(r, i, prompt) && r.tiers[i] == Tier(threshold, rates);
      if threshold' != BASE_TIER_THRESHOLD {
        var k :| IsTierOf(r, k, bound) && r.tiers[k] == Tier(threshold', rates');
        assert r.tiers[i].minExclusive <= r.tiers[k].minExclusive;
      }
    }
  }
}
