/** The prices by which budget is reserved: the highest configured rates, compared with the rates at
    which the same request is settled later, at whatever hour. */
module ReservedPrices {
  import opened Wrappers
  import opened Json
  import opened OffPeak
  import opened TimeOfUse
  import opened Pricing
  import opened TierKeys
  import opened PriceEndToEnd
  import opened PriceExactness
  import opened ServicePricing

  function Max(a: real, b: real): real {
    if a >= b then a else b
  }

  // The peak rates, raised to the scalar ones.
  function ConfiguredPeak(p: ModelPricing): Result<Option<TokenRates>, ()> {
    match ParseTimeOfUse(p.extra)
    case Err(e) => Err(e)
    case Ok(None) => Ok(None)
    case Ok(Some(t)) =>
      var baseInput := OrElse(p.input, None);
      Ok(Some(TokenRates(Max(t.peak.input, baseInput), Max(t.peak.output, OrElse(p.output, None)),
                         Max(t.peak.cacheRead, OrElse(ExtraNumber(p.extra, CACHE_READ), Some(baseInput))))))
  }

  function MaximumRates(p: ModelPricing, usage: TokenUsage, order: seq<Entry>): Result<ServiceRates, PriceError> {
    match ConfiguredPeak(p)
    case Err(_) => Err(BadSchedule)
    case Ok(peak) => RatesWith(p, usage, peak, order)
  }

  // ---- the rates ----

  // A scheduled row without a price for cache reads, off peak and in a tier of its input rate: the
  // reads are settled at the rate of the tier, which the maximum does not look at.
  predicate CacheReadIsMissed(p: ModelPricing, prompt: nat, at: Cell, order: seq<Entry>) {
    var declared, input := ParseTimeOfUse(p.extra), OrElse(p.input, None);
    && declared.Ok? && declared.value.Some? && PeakTokenRatesAt(p.extra, at) == Ok(None)
    && ExtraNumber(p.extra, CACHE_READ).None? && ServiceBest(order, CACHE_READ + "_above_", prompt).None?
    && ServiceTiered(order, input, INPUT + "_above_", prompt) > Max(declared.value.value.peak.cacheRead, input)
  }

  /** The maximum is defined exactly when the settlement is. Its rates for input, output and the
      creation of cache entries are never below those of any hour; its rate for cache reads is
      not, exactly in the case above. */
  lemma MaximumRatesCover(p: ModelPricing, usage: TokenUsage, at: Cell, order: seq<Entry>)
    ensures MaximumRates(p, usage, order).Ok? <==> RatesAt(p, usage, at, order).Ok?
    ensures RatesAt(p, usage, at, order).Ok? ==>
              var reserved, settled := MaximumRates(p, usage, order).value, RatesAt(p, usage, at, order).value;
              && settled.input <= reserved.input && settled.output <= reserved.output
              && settled.cacheCreation <= reserved.cacheCreation
              && (settled.cacheRead <= reserved.cacheRead <==> !CacheReadIsMissed(p, usage.prompt, at, order))
  {
  }

  /** An accepted row always has a price for cache reads. */
  lemma AcceptedRowsAreNotMissed(row: Row, s: Schedule, windows: seq<PeakWindow>, prompt: nat, at: Cell, order: seq<Entry>)
    requires Converted(row, s, windows)
    ensures !CacheReadIsMissed(Record(row, s, windows), prompt, at, order)
  {
    ParsedRatesAreRates(row);
    CacheReadOfConverted(row, s, windows);
  }

  // A hand-written row: peak on the first hour of Monday, a tier of the input rate, and no price
  // for cache reads.
  const MISSED_TIER: Entry := (TierKey(INPUT, 0, false, "_tokens"), Float(5.0))
  const MISSED_WINDOWS := [PeakWindow([1], 0, 1)]
  const MISSED_PEAK := Rates(Int(1), Int(1), Int(0))
  const MISSED_ROW := ModelPricing("chat", Some(1.0), Some(1.0), None,
                                   map[TIME_OF_USE := EncodeTimeOfUse(MISSED_WINDOWS, MISSED_PEAK),
                                       MISSED_TIER.0 := MISSED_TIER.1])

  lemma MissedDeclaration(at: Cell)
    requires IsCell(at) && at.0 != 1
    ensures ParseTimeOfUse(MISSED_ROW.extra) == Ok(Some(TimeOfUse.Pricing(MISSED_WINDOWS, TokenRates(1.0, 1.0, 0.0))))
    ensures PeakTokenRatesAt(MISSED_ROW.extra, at) == Ok(None)
  {
    assert TierKey(INPUT, 0, false, "_tokens")[0] == INPUT[0] == 'i' && TIME_OF_USE[0] == 't';
    EncodingReadsBack(MISSED_WINDOWS, MISSED_PEAK, MISSED_ROW.extra);
  }

  lemma MissedEntries(order: seq<Entry>)
    requires IsOrder(order, MISSED_ROW.extra)
    ensures MISSED_TIER in order && forall e | e in order :: e == MISSED_TIER || e.0 == TIME_OF_USE
  {
    var key := MISSED_TIER.0;
    assert key[0] == INPUT[0] == 'i' && TIME_OF_USE[0] == 't';
    assert MISSED_ROW.extra[key] == Float(5.0);
  }

  lemma MissedPrefixes(e: Entry)
    requires e.0 == TIME_OF_USE
    ensures !StartsWith(e.0, CACHE_READ + "_above_") && !StartsWith(e.0, INPUT + "_above_")
    ensures ServiceTier(MISSED_TIER, CACHE_READ + "_above_") == None
  {
    assert MISSED_TIER.0[0] == INPUT[0] == 'i' && TIME_OF_USE[0] == 't' && CACHE_READ[0] == 'c';
  }

  lemma MissedTier(order: seq<Entry>)
    requires IsOrder(order, MISSED_ROW.extra)
    ensures ServiceBest(order, CACHE_READ + "_above_", 1) == None
    ensures ServiceTiered(order, 1.0, INPUT + "_above_", 1) == 5.0
  {
    MissedEntries(order);
    MissedPrefixes((TIME_OF_USE, Null));
    OnlySuffixedThresholdsCount(INPUT, 0, false, "_tokens", 5.0);
    OnlyTier(order, MISSED_TIER, CACHE_READ + "_above_");
    OnlyTier(order, MISSED_TIER, INPUT + "_above_");
  }

  lemma OnlyTier(order: seq<Entry>, only: Entry, prefix: string)
    requires only in order && forall e | e in order && e != only :: !StartsWith(e.0, prefix)
    ensures var tier := ServiceTier(only, prefix);
            ServiceBest(order, prefix, 1) == if tier.Some? && tier.value.0 < 1 then tier else None
  {
    ServiceBestIsGreatest(order, prefix, 1);
  }

  /** Its cache reads are settled above the maximum, at every hour but those of Monday. */
  lemma MissedRow(at: Cell, order: seq<Entry>)
    requires IsCell(at) && at.0 != 1 && IsOrder(order, MISSED_ROW.extra)
    ensures CacheReadIsMissed(MISSED_ROW, 1, at, order)
  {
    MissedDeclaration(at);
    MissedTier(order);
    assert CACHE_READ !in MISSED_ROW.extra by {
      assert CACHE_READ[0] == 'c' && TierKey(INPUT, 0, false, "_tokens")[0] == INPUT[0] == 'i' && TIME_OF_USE[0] == 't';
    }
  }

  // ---- the cost ----

  // The usage that a reservation assumes: no cache, or a cache entry written from all of the prompt.
  function Plain(prompt: nat, completion: nat): TokenUsage {
    TokenUsage(prompt, completion, None, None, None, None)
  }

  function Writing(prompt: nat, completion: nat): TokenUsage {
    TokenUsage(prompt, completion, None, Some(prompt), None, None)
  }

  // For OpenAI, which may write the cache unasked, the dearer of the two is reserved.
  function Reserved(p: ModelPricing, prompt: nat, completion: nat, openai: bool, order: seq<Entry>): Result<real, PriceError> {
    match (MaximumRates(p, Plain(prompt, completion), order), MaximumRates(p, Writing(prompt, completion), order))
    case (Ok(plain), Ok(writing)) =>
      var full := TokenCost(Plain(prompt, completion), plain);
      Ok(if openai then Max(full, TokenCost(Writing(prompt, completion), writing)) else full)
    case (Err(e), _) => Err(e)
    case (_, Err(e)) => Err(e)
  }

  // A request without images whose cached parts fit into its prompt.
  predicate IsText(usage: TokenUsage) {
    usage.outputImages == None && usage.Creation() + usage.Read() <= usage.prompt
  }

  // The rates depend on the size of the prompt alone.
  lemma RatesByPrompt(p: ModelPricing, usage: TokenUsage, peak: Option<TokenRates>, order: seq<Entry>)
    requires IsText(usage)
    ensures RatesWith(p, usage, peak, order) == RatesWith(p, Plain(usage.prompt, usage.completion), peak, order)
    ensures RatesWith(p, usage, peak, order).Ok? ==>
              RatesWith(p, usage, peak, order) == RatesWith(p, Plain(usage.prompt, 0), peak, order)
  {
  }

  lemma TimesGrows(n: nat, a: real, b: real)
    requires a <= b
    ensures Times(n, a) <= Times(n, b)
  {
    var x := n as real;
    assert x * (b - a) >= 0.0;
  }

  lemma TimesSplits(a: nat, b: nat, c: nat, r: real)
    ensures Times(a + b + c, r) == Times(a, r) + Times(b, r) + Times(c, r)
  {
  }

  lemma TimesTells(n: nat, a: real, b: real)
    requires n > 0 && Times(n, a) <= Times(n, b)
    ensures a <= b
  {
    var x := n as real;
    assert x * (a - b) == x * a - x * b;
    PositiveProduct(x, a - b);
  }

  lemma PositiveProduct(x: real, y: real)
    requires x > 0.0
    ensures y > 0.0 ==> x * y > 0.0
  {
  }

  // The rate per prompt token that a reservation comes to.
  function PromptRate(reserved: ServiceRates, openai: bool): real {
    if openai then Max(reserved.input, reserved.cacheCreation) else reserved.input
  }

  lemma ReservedByPrompt(p: ModelPricing, usage: TokenUsage, openai: bool, order: seq<Entry>)
    requires IsText(usage) && usage.prompt < U32_LIMIT && MaximumRates(p, usage, order).Ok?
    ensures var reserved := MaximumRates(p, usage, order).value;
            Reserved(p, usage.prompt, usage.completion, openai, order)
            == Ok(Times(usage.prompt, PromptRate(reserved, openai)) + Times(usage.completion, reserved.output))
  {
    var peak := ConfiguredPeak(p).value;
    RatesByPrompt(p, usage, peak, order);
    RatesByPrompt(p, Writing(usage.prompt, usage.completion), peak, order);
    var reserved := MaximumRates(p, usage, order).value;
    if reserved.input >= reserved.cacheCreation {
      TimesGrows(usage.prompt, reserved.cacheCreation, reserved.input);
    } else {
      TimesGrows(usage.prompt, reserved.input, reserved.cacheCreation);
    }
  }

  // A prompt costs no more than all of it at a rate that bounds the three rates.
  lemma PromptIsBounded(usage: TokenUsage, r: ServiceRates, bound: real)
    requires IsText(usage) && usage.prompt < U32_LIMIT
    requires r.input <= bound && r.cacheRead <= bound && r.cacheCreation <= bound
    ensures Times(usage.NonCached(), r.input) + (Times(usage.Creation(), r.cacheCreation) + Times(usage.Read(), r.cacheRead))
            <= Times(usage.prompt, bound)
  {
    TimesGrows(usage.NonCached(), r.input, bound);
    TimesGrows(usage.Creation(), r.cacheCreation, bound);
    TimesGrows(usage.Read(), r.cacheRead, bound);
    TimesSplits(usage.NonCached(), usage.Creation(), usage.Read(), bound);
    assert usage.NonCached() + usage.Creation() + usage.Read() == usage.prompt;
  }

  // What is reserved for the request is enough for it.
  predicate IsCovered(p: ModelPricing, usage: TokenUsage, openai: bool, at: Cell, order: seq<Entry>) {
    var settled, reserved := RatesAt(p, usage, at, order), Reserved(p, usage.prompt, usage.completion, openai, order);
    settled.Ok? ==> reserved.Ok? && TokenCost(usage, settled.value) <= reserved.value
  }

  ghost predicate AllCovered(p: ModelPricing, prompt: nat, openai: bool, at: Cell, order: seq<Entry>) {
    forall usage: TokenUsage | IsText(usage) && usage.prompt == prompt :: IsCovered(p, usage, openai, at, order)
  }

  // Cached parts are settled at no more than the reserved rate per prompt token.
  predicate CacheIsCovered(p: ModelPricing, prompt: nat, openai: bool, at: Cell, order: seq<Entry>) {
    var settled, reserved := RatesAt(p, Plain(prompt, 0), at, order), MaximumRates(p, Plain(prompt, 0), order);
    settled.Ok? && reserved.Ok? ==>
      && settled.value.cacheRead <= PromptRate(reserved.value, openai)
      && settled.value.cacheCreation <= PromptRate(reserved.value, openai)
  }

  /** A reservation covers the tokens of every request of this prompt size, however much of the
      prompt is cached and whatever the completion, if and only if the rates for cached parts at
      that hour do not exceed the reserved rate per prompt token. */
  lemma ReservationCoversIff(p: ModelPricing, prompt: nat, openai: bool, at: Cell, order: seq<Entry>)
    requires 0 < prompt < U32_LIMIT
    ensures AllCovered(p, prompt, openai, at, order) <==> CacheIsCovered(p, prompt, openai, at, order)
  {
    if CacheIsCovered(p, prompt, openai, at, order) {
      forall usage: TokenUsage | IsText(usage) && usage.prompt == prompt ensures IsCovered(p, usage, openai, at, order) {
        CoveredByRates(p, usage, openai, at, order);
      }
    }
    if AllCovered(p, prompt, openai, at, order) {
      CoveredExtremes(p, prompt, openai, at, order);
    }
  }

  lemma CoveredByRates(p: ModelPricing, usage: TokenUsage, openai: bool, at: Cell, order: seq<Entry>)
    requires IsText(usage) && 0 < usage.prompt < U32_LIMIT && CacheIsCovered(p, usage.prompt, openai, at, order)
    ensures IsCovered(p, usage, openai, at, order)
  {
    MaximumRatesCover(p, usage, at, order);
    if RatesAt(p, usage, at, order).Ok? {
      var settled, reserved := RatesAt(p, usage, at, order).value, MaximumRates(p, usage, order).value;
      RatesOfText(p, usage, at, order);
      ReservedByPrompt(p, usage, openai, order);
      PromptIsBounded(usage, settled, PromptRate(reserved, openai));
      TimesGrows(usage.completion, settled.output, reserved.output);
    }
  }

  // A prompt that is read from the cache as a whole, and one that is written to it as a whole.
  lemma CoveredExtremes(p: ModelPricing, prompt: nat, openai: bool, at: Cell, order: seq<Entry>)
    requires 0 < prompt < U32_LIMIT && AllCovered(p, prompt, openai, at, order)
    ensures CacheIsCovered(p, prompt, openai, at, order)
  {
    var plain := Plain(prompt, 0);
    MaximumRatesCover(p, plain, at, order);
    if RatesAt(p, plain, at, order).Ok? {
      CoveredExtreme(p, plain.(cacheRead := Some(prompt)), openai, at, order);
      CoveredExtreme(p, plain.(cacheCreation := Some(prompt)), openai, at, order);
    }
  }

  lemma CoveredExtreme(p: ModelPricing, usage: TokenUsage, openai: bool, at: Cell, order: seq<Entry>)
    requires 0 < usage.prompt < U32_LIMIT && usage.completion == 0 && IsText(usage) && usage.NonCached() == 0
    requires usage.Creation() == 0 || usage.Read() == 0
    requires RatesAt(p, Plain(usage.prompt, 0), at, order).Ok? && IsCovered(p, usage, openai, at, order)
    ensures MaximumRates(p, Plain(usage.prompt, 0), order).Ok?
    ensures var settled, reserved := RatesAt(p, Plain(usage.prompt, 0), at, order).value, MaximumRates(p, Plain(usage.prompt, 0), order).value;
            (if usage.Creation() == 0 then settled.cacheRead else settled.cacheCreation) <= PromptRate(reserved, openai)
  {
    RatesOfText(p, usage, at, order);
    MaximumRatesCover(p, usage, at, order);
    ReservedByPrompt(p, usage, openai, order);
    ExtremeTells(usage, RatesAt(p, usage, at, order).value, MaximumRates(p, usage, order).value, openai);
  }

  lemma ExtremeTells(usage: TokenUsage, settled: ServiceRates, reserved: ServiceRates, openai: bool)
    requires 0 < usage.prompt < U32_LIMIT && usage.completion == 0 && IsText(usage) && usage.NonCached() == 0
    requires usage.Creation() == 0 || usage.Read() == 0
    requires TokenCost(usage, settled) <= Times(usage.prompt, PromptRate(reserved, openai)) + Times(0, reserved.output)
    ensures (if usage.Creation() == 0 then settled.cacheRead else settled.cacheCreation) <= PromptRate(reserved, openai)
  {
    TimesTells(usage.prompt, if usage.Creation() == 0 then settled.cacheRead else settled.cacheCreation,
               PromptRate(reserved, openai));
  }

  lemma RatesOfText(p: ModelPricing, usage: TokenUsage, at: Cell, order: seq<Entry>)
    requires IsText(usage)
    ensures var settled := RatesAt(p, usage, at, order);
            settled.Ok? || usage.completion == 0 ==> settled == RatesAt(p, Plain(usage.prompt, 0), at, order)
    ensures var reserved := MaximumRates(p, usage, order);
            reserved.Ok? || usage.completion == 0 ==> reserved == MaximumRates(p, Plain(usage.prompt, 0), order)
  {
    if PeakTokenRatesAt(p.extra, at).Ok? {
      RatesByPrompt(p, usage, PeakTokenRatesAt(p.extra, at).value, order);
    }
    if ConfiguredPeak(p).Ok? {
      RatesByPrompt(p, usage, ConfiguredPeak(p).value, order);
    }
  }
}
