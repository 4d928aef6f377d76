/** The prices by which requests are settled: the rates of PricingService, whose own reader of tier
    keys is stricter than that of the price database. */
module ServicePricing {
  import opened Wrappers
  import opened Json
  import opened OffPeak
  import opened TimeOfUse
  import opened Pricing
  import opened TierKeys
  import opened PriceEndToEnd
  import opened PriceExactness

  const CACHE_CREATION := "cache_creation_input_token_cost"

  // The text around the last occurrence of the pattern.
  function CutLast(s: string, pattern: string): (r: Option<(string, string)>)
    requires pattern != []
    ensures r.Some? ==> s == r.value.0 + pattern + r.value.1
  {
    if s == [] then None
    else match CutLast(s[1..], pattern)
      case Some((before, after)) => Some(([s[0]] + before, after))
      case None => if pattern <= s then Some(([], s[|pattern|..])) else None
  }

  // Here the number is all that stands between the last "_above_" and a final "_tokens".
  function ServiceThreshold(key: string): Option<nat> {
    match CutLast(key, "_above_")
    case None => None
    case Some((_, rest)) => SuffixedNumber(rest)
  }

  function SuffixedNumber(rest: string): Option<nat> {
    if EndsWith(rest, "_tokens") then NumberOf(rest[..|rest| - |"_tokens"|]) else None
  }

  // The factor for a trailing k wraps at 32 bits, as in the price database.
  function NumberOf(threshold: string): Option<nat> {
    if EndsWith(threshold, "k")
    then (match ParseU32(threshold[..|threshold| - 1])
      case None => None
      case Some(n) => Some(n * 1000 % U32_LIMIT))
    else ParseU32(threshold)
  }

  // Keys with a second "_above_" belong to another prefix.
  function ServiceTier(e: Entry, prefix: string): Option<(nat, real)> {
    if !StartsWith(e.0, prefix) || Cut(e.0[|prefix|..], "_above_").Some? then None
    else match (ServiceThreshold(e.0), Number(e.1))
      case (Some(threshold), Some(rate)) => Some((threshold, rate))
      case _ => None
  }

  // The maximum by threshold over the entries in iteration order; of equal ones the last.
  function ServiceBest(entries: seq<Entry>, prefix: string, prompt: nat): Option<(nat, real)> {
    if entries == [] then None
    else
      var best := ServiceBest(entries[..|entries| - 1], prefix, prompt);
      match ServiceTier(entries[|entries| - 1], prefix)
      case None => best
      case Some(t) => if prompt > t.0 && (best.None? || best.value.0 <= t.0) then Some(t) else best
  }

  function ServiceTiered(entries: seq<Entry>, base: real, prefix: string, prompt: nat): real {
    match ServiceBest(entries, prefix, prompt)
    case None => base
    case Some((_, rate)) => rate
  }

  // ---- the rates of a request ----

  datatype TokenUsage = TokenUsage(prompt: nat, completion: nat, cached: Option<nat>, cacheCreation: Option<nat>,
                                   cacheRead: Option<nat>, outputImages: Option<nat>)
  {
    function Creation(): nat {
      OrZero(cacheCreation)
    }

    function Read(): nat {
      if cacheRead.Some? then cacheRead.value else OrZero(cached)
    }

    // Both operations saturate at the ends of 32 bits.
    function NonCached(): nat {
      var apart := if Creation() + Read() < U32_LIMIT then Creation() + Read() else U32_LIMIT - 1;
      if apart <= prompt then prompt - apart else 0
    }
  }

  function OrZero(n: Option<nat>): nat {
    if n.Some? then n.value else 0
  }

  datatype PriceError = BadSchedule | MissingPrice | NegativePrice

  function PriceForUnits(price: Option<real>, units: nat, flatImage: bool): Result<real, PriceError> {
    if units == 0 || (price.None? && flatImage) then Ok(OrElse(price, None))
    else if price.None? then Err(MissingPrice)
    else if price.value < 0.0 then Err(NegativePrice)
    else Ok(price.value)
  }

  predicate HasFlatImagePrice(p: ModelPricing, usage: TokenUsage) {
    OrZero(usage.outputImages) > 0 && ExtraNumber(p.extra, "output_cost_per_image").Some?
  }

  datatype ServiceRates = ServiceRates(input: real, output: real, cacheRead: real, cacheCreation: real)

  // The rates of a standard request; `order` is the order in which the runtime iterates `extra`.
  function RatesWith(p: ModelPricing, usage: TokenUsage, peak: Option<TokenRates>, order: seq<Entry>)
    : Result<ServiceRates, PriceError>
  {
    match (PriceForUnits(p.input, usage.prompt, HasFlatImagePrice(p, usage)),
           PriceForUnits(p.output, usage.completion, HasFlatImagePrice(p, usage)))
    case (Err(e), _) => Err(e)
    case (_, Err(e)) => Err(e)
    case (Ok(input), Ok(output)) =>
      var baseInput := if peak.Some? then peak.value.input else input;
      var baseOutput := if peak.Some? then peak.value.output else output;
      var inputRate := ServiceTiered(order, baseInput, INPUT + "_above_", usage.prompt);
      var outputRate := ServiceTiered(order, baseOutput, OUTPUT + "_above_", usage.prompt);
      var read := if peak.Some? then peak.value.cacheRead else OrElse(ExtraNumber(p.extra, CACHE_READ), Some(inputRate));
      var creation := OrElse(ExtraNumber(p.extra, CACHE_CREATION), Some(inputRate));
      Ok(ServiceRates(inputRate, outputRate,
                      ServiceTiered(order, read, CACHE_READ + "_above_", usage.prompt),
                      ServiceTiered(order, creation, CACHE_CREATION + "_above_", usage.prompt)))
  }

  // The rates at which a request is settled.
  function RatesAt(p: ModelPricing, usage: TokenUsage, at: Cell, order: seq<Entry>): Result<ServiceRates, PriceError> {
    match PeakTokenRatesAt(p.extra, at)
    case Err(_) => Err(BadSchedule)
    case Ok(peak) => RatesWith(p, usage, peak, order)
  }

  // The charge for the tokens of a request without one-hour cache writes.
  function TokenCost(usage: TokenUsage, r: ServiceRates): real {
    Times(usage.NonCached(), r.input) + Times(usage.completion, r.output)
    + (Times(usage.Creation(), r.cacheCreation) + Times(usage.Read(), r.cacheRead))
  }

  /** The prompt is charged once, token by token, exactly when its cached parts fit into it. */
  lemma PromptIsChargedOnceIff(usage: TokenUsage)
    requires usage.prompt < U32_LIMIT
    ensures usage.NonCached() + usage.Creation() + usage.Read() == usage.prompt
            <==> usage.Creation() + usage.Read() <= usage.prompt
    ensures usage.NonCached() + usage.Creation() + usage.Read() >= usage.prompt
  {
  }

  // ---- what this reader takes for a tier ----

  /** Every key that it takes for a tier of a scheduled rate is one that the script refuses. */
  lemma ServiceTiersAreTierKeys(e: Entry, field: string)
    requires field in FIELDS && ServiceTier(e, field + "_above_").Some?
    ensures IsTierKey(e.0)
  {
    var cut := CutLast(e.0, "_above_").value;
    assert EndsWith(cut.1, "_tokens") && e.0 == cut.0 + "_above_" + cut.1;
    EndOfEnd(cut.0 + "_above_", cut.1, "_tokens");
  }

  lemma EndOfEnd(head: string, tail: string, suffix: string)
    requires EndsWith(tail, suffix)
    ensures EndsWith(head + tail, suffix)
  {
    var s := head + tail;
    assert s[|s| - |suffix|..] == tail[|tail| - |suffix|..];
  }

  predicate IsLive(e: Entry, prefix: string, prompt: nat) {
    ServiceTier(e, prefix).Some? && prompt > ServiceTier(e, prefix).value.0
  }

  /** The fold selects the rate of a live tier that no live tier exceeds, and the base if and only
      if there is none. */
  lemma {:induction false} ServiceBestIsGreatest(entries: seq<Entry>, prefix: string, prompt: nat)
    ensures var best := ServiceBest(entries, prefix, prompt);
            && (best.None? <==> forall e | e in entries :: !IsLive(e, prefix, prompt))
            && (best.Some? ==> exists e | e in entries :: IsLive(e, prefix, prompt) && ServiceTier(e, prefix) == best)
            && (best.Some? ==> forall e | e in entries ::
                  IsLive(e, prefix, prompt) ==> ServiceTier(e, prefix).value.0 <= best.value.0)
  {
    if entries != [] {
      var init, last := entries[..|entries| - 1], entries[|entries| - 1];
      ServiceBestIsGreatest(init, prefix, prompt);
      assert entries == init + [last] && last in entries && forall e | e in init :: e in entries;
    }
  }

  lemma AddedKeysAreNoTierKeys()
    ensures !IsTierKey(TIME_OF_USE) && !IsTierKey(CACHE_READ)
  {
    NotTierKeys();
    LastCharacters(TIME_OF_USE, "_tokens");
  }

  lemma AddedKeysOfRecord(row: Row, s: Schedule, windows: seq<PeakWindow>, k: string)
    requires k in Record(row, s, windows).extra
    ensures k in row || k == TIME_OF_USE || k == CACHE_READ
  {
  }

  lemma AcceptedRowsHaveNoTierKeys(row: Row)
    requires OFF_PEAK in row && Parse(row).Ok?
    ensures forall k | k in row :: !IsTierKey(k)
  {
    assert !HasTiers(row);
  }

  // An accepted row has no tier for this reader, and the conversion adds none.
  lemma AcceptedRowsHaveNoTiers(row: Row, s: Schedule, windows: seq<PeakWindow>, field: string, e: Entry)
    requires Converted(row, s, windows) && field in FIELDS
    requires e.0 in Record(row, s, windows).extra
    ensures ServiceTier(e, field + "_above_").None?
  {
    if ServiceTier(e, field + "_above_").Some? {
      ServiceTiersAreTierKeys(e, field);
      AddedKeysAreNoTierKeys();
      AddedKeysOfRecord(row, s, windows, e.0);
      AcceptedRowsHaveNoTierKeys(row);
    }
  }

  lemma AcceptedRowsKeepTheBase(
    row: Row, s: Schedule, windows: seq<PeakWindow>, field: string, base: real, prompt: nat, order: seq<Entry>)
    requires Converted(row, s, windows) && field in FIELDS && IsOrder(order, Record(row, s, windows).extra)
    ensures ServiceTiered(order, base, field + "_above_", prompt) == base
  {
    forall e | e in order ensures ServiceTier(e, field + "_above_").None? {
      AcceptedRowsHaveNoTiers(row, s, windows, field, e);
    }
    ServiceBestIsGreatest(order, field + "_above_", prompt);
  }

  // ---- the settled price of a converted row ----

  lemma CacheReadOfConverted(row: Row, s: Schedule, windows: seq<PeakWindow>)
    ensures ExtraNumber(Record(row, s, windows).extra, CACHE_READ) == Number(s.offRates.cacheRead)
  {
    assert |INPUT| == 20 && |OUTPUT| == 21 && |CACHE_READ| == 27 && |TIME_OF_USE| == 19 && CACHE_READ[0] == 'c';
    assert CACHE_READ !in RECORD_FIELDS;
  }

  lemma ConvertedPricesAreThere(row: Row, s: Schedule, windows: seq<PeakWindow>, units: nat, flatImage: bool)
    requires Converted(row, s, windows)
    ensures var p := Record(row, s, windows);
            && p.input.Some? && PriceForUnits(p.input, units, flatImage) == Ok(p.input.value)
            && p.output.Some? && PriceForUnits(p.output, units, flatImage) == Ok(p.output.value)
  {
    ParsedRatesAreRates(row);
    ConvertedBaseRates(row, s, windows);
  }

  // The creation of a cache entry is priced apart, on top of the input rate in force.
  function CreationRate(row: Row, s: Schedule, windows: seq<PeakWindow>, prompt: nat, at: Cell, order: seq<Entry>): real
    requires IsCell(at)
  {
    ServiceTiered(order, OrElse(ExtraNumber(Record(row, s, windows).extra, CACHE_CREATION), Number(InForce(s, at).input)),
                  CACHE_CREATION + "_above_", prompt)
  }

  /** Every accepted row follows its schedule: for every request, at every hour and in every map
      order, input, output and cache reads are settled at the upstream rates in force. */
  lemma SettledRatesFollowSchedule(
    row: Row, s: Schedule, windows: seq<PeakWindow>, usage: TokenUsage, at: Cell, order: seq<Entry>)
    requires Converted(row, s, windows) && IsCell(at) && IsOrder(order, Record(row, s, windows).extra)
    ensures var now := InForce(s, at);
            && Number(now.input).Some? && Number(now.output).Some? && Number(now.cacheRead).Some?
            && RatesAt(Record(row, s, windows), usage, at, order)
               == Ok(ServiceRates(Number(now.input).value, Number(now.output).value, Number(now.cacheRead).value,
                                  CreationRate(row, s, windows, usage.prompt, at, order)))
  {
    var p, now := Record(row, s, windows), InForce(s, at);
    ParsedRatesAreRates(row);
    LookupFollowsSchedule(row, s, windows, at);
    ConvertedBaseRates(row, s, windows);
    CacheReadOfConverted(row, s, windows);
    ConvertedPricesAreThere(row, s, windows, usage.prompt, HasFlatImagePrice(p, usage));
    ConvertedPricesAreThere(row, s, windows, usage.completion, HasFlatImagePrice(p, usage));
    AcceptedRowsKeepTheBase(row, s, windows, INPUT, Number(now.input).value, usage.prompt, order);
    AcceptedRowsKeepTheBase(row, s, windows, OUTPUT, Number(now.output).value, usage.prompt, order);
    AcceptedRowsKeepTheBase(row, s, windows, CACHE_READ, Number(now.cacheRead).value, usage.prompt, order);
  }

  /** Hence the charge: prompt tokens outside the cache, completion tokens and cache reads at the
      upstream rates, and what creating cache entries costs. */
  lemma SettledChargeFollowsSchedule(
    row: Row, s: Schedule, windows: seq<PeakWindow>, usage: TokenUsage, at: Cell, order: seq<Entry>)
    requires Converted(row, s, windows) && IsCell(at) && IsOrder(order, Record(row, s, windows).extra)
    ensures var now, settled := InForce(s, at), RatesAt(Record(row, s, windows), usage, at, order);
            && settled.Ok?
            && Number(now.input).Some? && Number(now.output).Some? && Number(now.cacheRead).Some?
            && TokenCost(usage, settled.value)
               == Times(usage.NonCached(), Number(now.input).value) + Times(usage.completion, Number(now.output).value)
                  + Times(usage.Read(), Number(now.cacheRead).value)
                  + Times(usage.Creation(), CreationRate(row, s, windows, usage.prompt, at, order))
  {
    SettledRatesFollowSchedule(row, s, windows, usage, at, order);
  }

  /** The price database and the settlement charge one input and one output rate, for every
      request, hour and map order, exactly when every key that the database takes for a tier is
      harmless. */
  lemma CalculatorsAgreeIffTiersAreHarmless(row: Row, s: Schedule, windows: seq<PeakWindow>)
    requires Converted(row, s, windows)
    ensures CalculatorsAgree(row, s, windows) <==> forall side: Side, k | k in row :: IsHarmless(row, s, side, k)
  {
    forall usage: TokenUsage, at: Cell, order: seq<Entry>
      | IsCell(at) && IsOrder(order, Record(row, s, windows).extra)
      ensures forall side: Side :: ChargesAlike(row, s, windows, side, usage, at, order)
                                   <==> FollowsSchedule(row, s, windows, side, usage.prompt, at, order)
    {
      SettledRatesFollowSchedule(row, s, windows, usage, at, order);
    }
    ScheduleDecidesIffTiersAreHarmless(row, s, windows);
    if CalculatorsAgree(row, s, windows) {
      forall side: Side, prompt: nat, at: Cell, order: seq<Entry>
        | prompt < U32_LIMIT && IsCell(at) && IsOrder(order, Record(row, s, windows).extra)
        ensures FollowsSchedule(row, s, windows, side, prompt, at, order)
      {
        assert ChargesAlike(row, s, windows, side, TokenUsage(prompt, 0, None, None, None, None), at, order);
      }
    }
  }

  ghost predicate CalculatorsAgree(row: Row, s: Schedule, windows: seq<PeakWindow>) {
    forall side: Side, usage: TokenUsage, at: Cell, order: seq<Entry>
      | usage.prompt < U32_LIMIT && IsCell(at) && IsOrder(order, Record(row, s, windows).extra) ::
      ChargesAlike(row, s, windows, side, usage, at, order)
  }

  predicate ChargesAlike(
    row: Row, s: Schedule, windows: seq<PeakWindow>, side: Side, usage: TokenUsage, at: Cell, order: seq<Entry>)
  {
    var settled := RatesAt(Record(row, s, windows), usage, at, order);
    && settled.Ok?
    && Charged(Record(row, s, windows), side, at, order, usage.prompt)
       == Some(if side.In? then settled.value.input else settled.value.output)
  }

  // ---- which spelled thresholds count ----

  lemma {:induction false} DigitsAreDigits(s: string)
    ensures DigitsValue(s).Some? ==> forall c | c in s :: IsDigit(c)
  {
    if s != [] {
      DigitsAreDigits(s[..|s| - 1]);
      assert s == s[..|s| - 1] + [s[|s| - 1]];
    }
  }

  lemma NoNumber(s: string, i: nat)
    requires i < |s| && s[i] == '_'
    ensures ParseU32(s).None?
  {
    var digits := if "+" <= s then s[1..] else s;
    var plus := "+";
    assert plus[0] == '+';
    DigitsAreDigits(digits);
    assert digits[if "+" <= s then i - 1 else i] == '_';
    assert !IsDigit('_');
  }

  // Behind the prefix no further occurrence starts before the text does.
  lemma {:induction false} CutLastAt(a: string, b: string)
    requires Cut(b, "_above_") == None && (b == [] || b[0] != 'a')
    ensures CutLast(a + "_above_" + b, "_above_") == Some((a, b))
    decreases |a|
  {
    var pattern, s := "_above_", a + "_above_" + b;
    if a == [] {
      assert s == pattern + b;
      NoneLater(b);
      assert s[1..] == pattern[1..] + b && s[|pattern|..] == b;
    } else {
      CutLastAt(a[1..], b);
      assert s[1..] == a[1..] + pattern + b && s[0] == a[0] && a == [a[0]] + a[1..];
    }
  }

  lemma {:induction false} NoOccurrence(b: string)
    requires Cut(b, "_above_") == None
    ensures CutLast(b, "_above_") == None
  {
    if b != [] {
      NoOccurrence(b[1..]);
    }
  }

  lemma NoneLater(b: string)
    requires Cut(b, "_above_") == None && (b == [] || b[0] != 'a')
    ensures CutLast("above_" + b, "_above_") == None
  {
    var t, pattern := "above_" + b, "_above_";
    assert |pattern| == 7 && pattern[0] == '_' && pattern[1] == 'a';
    NoOccurrence(b);
    Skip(t[5..], b);
    Skip(t[4..], t[5..]);
    Skip(t[3..], t[4..]);
    Skip(t[2..], t[3..]);
    Skip(t[1..], t[2..]);
    Skip(t, t[1..]);
  }

  lemma Skip(s: string, rest: string)
    requires s != [] && s[1..] == rest && CutLast(rest, "_above_") == None && !("_above_" <= s)
    ensures CutLast(s, "_above_") == None
  {
  }

  lemma NumberHasNoUnderscore(n: nat, thousands: bool)
    ensures var number := Decimal(n) + Unit(thousands);
            '_' !in number && number != [] && number[0] != 'a' && number[|number| - 1] != 's'
  {
    var number := Decimal(n) + Unit(thousands);
    assert number[0] in Decimal(n) && forall c | c in number :: c in Decimal(n) || c == 'k';
    assert number[|number| - 1] in number;
  }

  lemma SuffixIsNotCut(number: string)
    requires '_' !in number
    ensures Cut(number + "_tokens", "_above_") == None
  {
    var tail := "_tokens";
    assert |tail| == 7 && tail[0] == '_' && tail[1] == 't';
    OneUnderscore(number);
    assert StartsNoTier(number + tail, 'a');
    CutBehind(number + tail, "");
    assert number + tail + "" == number + tail;
  }

  lemma OtherPrefixIsCut(number: string, tail: string)
    requires '_' !in number && "_above_" <= tail
    ensures Cut(number + tail, "_above_").Some? && tail != "_tokens"
  {
    var pattern := "_above_";
    assert pattern[1] == 'a' && "_tokens"[1] == 't';
    var rest := tail[|pattern|..];
    assert tail == pattern + rest && number + (pattern + rest) == number + pattern + rest;
    NoUnderscore(number);
    CutAt(number, rest);
  }

  lemma TierOfText(field: string, text: string, v: real)
    requires text != [] && text[0] != 'a'
    ensures ServiceTier((field + "_above_" + text, Float(v)), field + "_above_")
            == if Cut(text, "_above_").Some? || SuffixedNumber(text).None? then None
               else Some((SuffixedNumber(text).value, v))
  {
    var prefix := field + "_above_";
    assert (prefix + text)[|prefix|..] == text;
    if Cut(text, "_above_") == None {
      CutLastAt(field, text);
    }
  }

  // With the final suffix the number is all of the text.
  lemma SuffixedReads(n: nat, thousands: bool)
    ensures SuffixedNumber(Decimal(n) + Unit(thousands) + "_tokens")
            == if n >= U32_LIMIT then None else Some(if thousands then n * 1000 % U32_LIMIT else n)
  {
    var number, tail := Decimal(n) + Unit(thousands), "_tokens";
    assert (number + tail)[|number|..] == tail && (number + tail)[..|number|] == number;
    NumberReads(n, thousands);
  }

  // With anything more behind the suffix, or without it, there is no number.
  lemma OtherTailsDoNot(number: string, tail: string)
    requires '_' !in number && number != [] && number[|number| - 1] != 's'
    requires tail == "" || ("_tokens" <= tail && tail != "_tokens")
    ensures SuffixedNumber(number + tail) == None
  {
    var text, suffix := number + tail, "_tokens";
    assert |suffix| == 7 && suffix[6] == 's' && suffix[0] == '_';
    if tail == "" {
      assert text == number;
      LastCharacters(text, suffix);
    } else {
      assert |tail| > 7 && tail[0] == '_';
      var threshold := text[..|text| - 7];
      assert threshold[|number|] == '_';
      NoNumberWithUnderscore(threshold, |number|);
    }
  }

  lemma NoNumberWithUnderscore(threshold: string, i: nat)
    requires i < |threshold| && threshold[i] == '_'
    ensures NumberOf(threshold) == None
  {
    var k := "k";
    assert |k| == 1 && k[0] == 'k';
    NoNumber(threshold, i);
    if EndsWith(threshold, k) {
      assert threshold[|threshold| - 1..][0] == 'k';
      NoNumber(threshold[..|threshold| - 1], i);
    }
  }

  /** Every tier of this reader is one of the price database, with the same threshold and rate,
      unless the text behind the prefix completes another "_above_". */
  lemma ServiceTiersAreDatabaseTiers(field: string, text: string, v: real)
    requires field in FIELDS && text != [] && text[0] != 'a'
    ensures var e, prefix := (field + "_above_" + text, Float(v)), field + "_above_";
            ServiceTier(e, prefix).Some? ==> Tier(e, prefix) == ServiceTier(e, prefix)
  {
    TierOfText(field, text, v);
    if Cut(text, "_above_") == None && SuffixedNumber(text).Some? {
      DatabaseThreshold(field, text);
      SuffixedNumberIsFirst(text);
    }
  }

  lemma DatabaseThreshold(field: string, text: string)
    requires field in FIELDS && Cut(text, "_above_") == None
    ensures ExtractTierThreshold(field + "_above_" + text) == NumberOf(UpTo(text, "_tokens"))
  {
    FieldsStartNoTier(field);
    CutAt(field, text);
  }

  lemma SuffixedNumberIsFirst(text: string)
    requires SuffixedNumber(text).Some?
    ensures SuffixedNumber(text) == NumberOf(UpTo(text, "_tokens"))
  {
    var threshold := text[..|text| - |"_tokens"|];
    if '_' in threshold {
      var i :| 0 <= i < |threshold| && threshold[i] == '_';
      NoNumberWithUnderscore(threshold, i);
    }
    CutSuffix(threshold, "");
    assert text == threshold + "_tokens" + "";
  }

  /** Of the spelled thresholds that the price database reads, this reader takes exactly those
      that end with "_tokens" right behind the number: no priority key and no key without the
      suffix is a tier, and no two tails spell one threshold. */
  lemma OnlySuffixedThresholdsCount(field: string, n: nat, thousands: bool, tail: string, v: real)
    requires field in FIELDS && IsTail(tail)
    ensures ServiceTier((TierKey(field, n, thousands, tail), Float(v)), field + "_above_")
            == if tail == "_tokens" && n < U32_LIMIT then Some((if thousands then n * 1000 % U32_LIMIT else n, v)) else None
  {
    var number := Decimal(n) + Unit(thousands);
    NumberHasNoUnderscore(n, thousands);
    TierOfText(field, number + tail, v);
    if "_above_" <= tail {
      OtherPrefixIsCut(number, tail);
    } else if tail == "_tokens" {
      SuffixIsNotCut(number);
      SuffixedReads(n, thousands);
    } else {
      OtherTailsDoNot(number, tail);
    }
  }
}
