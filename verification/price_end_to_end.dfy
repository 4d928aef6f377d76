/** From the upstream declaration to the charge: the catalog script's conversion composed with
    the calculation of the price database. */
module PriceEndToEnd {
  import opened Wrappers
  import opened Json
  import opened OffPeak
  import opened OffPeakCompiler
  import opened OffPeakMeaning
  import opened TimeOfUse
  import opened Pricing

  // Keys with a field of their own in the gateway's pricing record; all others land in `extra`.
  const RECORD_FIELDS: set<string> := {
    "max_tokens", "max_input_tokens", "max_output_tokens", INPUT, OUTPUT,
    "input_cost_per_character", "output_cost_per_character", "cost_per_second", "litellm_provider", "mode",
    "supports_function_calling", "supports_vision", "supports_streaming",
    "supports_parallel_function_calling", "supports_system_message"}

  const INPUT_TIER := INPUT + "_above_"
  const OUTPUT_TIER := OUTPUT + "_above_"

  function FromRow(row: Row): ModelPricing {
    ModelPricing(
      match Get(row, "mode") case Some(Str(s)) => s case _ => "",
      ExtraNumber(row, INPUT), ExtraNumber(row, OUTPUT), ExtraNumber(row, "cost_per_second"),
      row - RECORD_FIELDS)
  }

  ghost predicate NoLiveTier(row: Row, prefix: string, prompt: nat) {
    forall k | k in row :: LiveTier((k, row[k]), prefix, prompt).None?
  }

  // The upstream rates in force at the hour.
  function InForce(s: Schedule, at: Cell): Rates
    requires IsCell(at)
  {
    if AnyCovers(s.windows, s.offset, at) then s.offRates else s.peakRates
  }

  ghost predicate Converted(row: Row, s: Schedule, windows: seq<PeakWindow>) {
    OFF_PEAK in row && Parse(row) == Ok(s) && Compiles(windows, OffCells(s.windows, s.offset))
  }

  lemma CompiledWindowsAreValid(windows: seq<PeakWindow>, off: set<Cell>)
    requires Compiles(windows, off)
    ensures forall w | w in windows :: ValidWindow(w)
  {
    forall w | w in windows ensures ValidWindow(w) {
      assert w.weekdays[0] in w.weekdays;
    }
  }

  lemma ParsedParts(row: Row)
    requires OFF_PEAK in row && Parse(row).Ok?
    ensures row[OFF_PEAK].Obj? && TIME_OF_USE !in row && HasRates(row) && HasRates(row[OFF_PEAK].fields)
    ensures Parse(row).value.offRates == RatesOf(row[OFF_PEAK].fields) && Parse(row).value.peakRates == RatesOf(row)
  {
  }

  lemma ParsedRatesAreRates(row: Row)
    requires OFF_PEAK in row && Parse(row).Ok?
    ensures var s := Parse(row).value;
            && IsRate(Some(s.offRates.input)) && IsRate(Some(s.offRates.output)) && IsRate(Some(s.offRates.cacheRead))
            && IsRate(Some(s.peakRates.input)) && IsRate(Some(s.peakRates.output)) && IsRate(Some(s.peakRates.cacheRead))
    ensures TIME_OF_USE !in row
  {
    ParsedParts(row);
    var off := row[OFF_PEAK].fields;
    assert IsRate(Get(off, INPUT)) && IsRate(Get(off, OUTPUT)) && IsRate(Get(off, CACHE_READ));
    assert IsRate(Get(row, INPUT)) && IsRate(Get(row, OUTPUT)) && IsRate(Get(row, CACHE_READ));
  }

  lemma DeclarationOfConverted(row: Row, s: Schedule, windows: seq<PeakWindow>)
    requires TIME_OF_USE !in row
    ensures Get(FromRow(Convert(row, s, windows)).extra, TIME_OF_USE)
            == if windows == [] then None else Some(EncodeTimeOfUse(windows, s.peakRates))
  {
    assert TIME_OF_USE[0] == 't';
    assert TIME_OF_USE !in RECORD_FIELDS && TIME_OF_USE != CACHE_READ;
  }

  // What the gateway parses out of the converted row.
  lemma EmittedParses(extra: Row, windows: seq<PeakWindow>, peak: Rates, off: set<Cell>)
    requires Compiles(windows, off)
    requires IsRate(Some(peak.input)) && IsRate(Some(peak.output)) && IsRate(Some(peak.cacheRead))
    requires Get(extra, TIME_OF_USE) == if windows == [] then None else Some(EncodeTimeOfUse(windows, peak))
    ensures ParseTimeOfUse(extra) == Ok(if windows == [] then None else Some(TimeOfUse.Pricing(windows, RatesAsReals(peak))))
  {
    if windows != [] {
      CompiledWindowsAreValid(windows, off);
      EncodingReadsBack(windows, peak, extra);
    }
  }

  lemma ConvertedRowParses(row: Row, s: Schedule, windows: seq<PeakWindow>)
    requires Converted(row, s, windows)
    ensures Number(s.peakRates.input).Some? && Number(s.peakRates.output).Some? && Number(s.peakRates.cacheRead).Some?
    ensures ParseTimeOfUse(FromRow(Convert(row, s, windows)).extra)
            == Ok(if windows == [] then None else Some(TimeOfUse.Pricing(windows, RatesAsReals(s.peakRates))))
  {
    ParsedRatesAreRates(row);
    DeclarationOfConverted(row, s, windows);
    EmittedParses(FromRow(Convert(row, s, windows)).extra, windows, s.peakRates, OffCells(s.windows, s.offset));
  }

  /** The gateway finds peak rates in the converted row exactly at the hours that no upstream
      window covers, and they are the row's own rates. */
  lemma LookupFollowsSchedule(row: Row, s: Schedule, windows: seq<PeakWindow>, at: Cell)
    requires Converted(row, s, windows) && IsCell(at)
    ensures Number(s.peakRates.input).Some? && Number(s.peakRates.output).Some? && Number(s.peakRates.cacheRead).Some?
    ensures PeakTokenRatesAt(FromRow(Convert(row, s, windows)).extra, at)
            == Ok(if AnyCovers(s.windows, s.offset, at) then None else Some(RatesAsReals(s.peakRates)))
  {
    ConvertedRowParses(row, s, windows);
    ListedIffPeak(windows, OffCells(s.windows, s.offset), at);
  }

  // The conversion adds no key that either tier prefix matches.
  lemma ConversionAddsNoTiers(row: Row, s: Schedule, windows: seq<PeakWindow>, prefix: string, prompt: nat, k: string)
    requires prefix == INPUT_TIER || prefix == OUTPUT_TIER
    requires k in FromRow(Convert(row, s, windows)).extra && StartsWith(k, prefix)
    ensures k in row && FromRow(Convert(row, s, windows)).extra[k] == row[k]
  {
    assert prefix[0] == k[0] && (k[0] == 'i' || k[0] == 'o');
  }

  lemma NoTierNoChange(row: Row, s: Schedule, windows: seq<PeakWindow>, order: seq<Entry>, base: real, prefix: string, prompt: nat)
    requires IsOrder(order, FromRow(Convert(row, s, windows)).extra)
    requires prefix == INPUT_TIER || prefix == OUTPUT_TIER
    requires NoLiveTier(row, prefix, prompt)
    ensures TieredCostPerToken(order, base, prefix, prompt) == base
  {
    BestTierIsGreatest(order, prefix, prompt);
    forall e | e in order ensures LiveTier(e, prefix, prompt).None? {
      if StartsWith(e.0, prefix) {
        ConversionAddsNoTiers(row, s, windows, prefix, prompt, e.0);
        assert LiveTier((e.0, row[e.0]), prefix, prompt).None?;
      }
    }
  }

  // The base rates of the converted row are the off-peak ones.
  lemma ConvertedBaseRates(row: Row, s: Schedule, windows: seq<PeakWindow>)
    ensures var p := FromRow(Convert(row, s, windows));
            p.input == Number(s.offRates.input) && p.output == Number(s.offRates.output)
  {
    assert |INPUT| == 20 && |OUTPUT| == 21 && |CACHE_READ| == 27 && |TIME_OF_USE| == 19;
  }

  lemma ChargeByRates(p: ModelPricing, usage: Usage, at: Cell, order: seq<Entry>, input: real, output: real)
    requires p.input.Some? && p.output.Some? && PeakTokenRatesAt(p.extra, at).Ok?
    requires InputAt(p, at) == input && OutputAt(p, at) == output
    requires TieredCostPerToken(order, input, INPUT_TIER, usage.prompt) == input
    requires TieredCostPerToken(order, output, OUTPUT_TIER, usage.prompt) == output
    ensures CostAt(p, usage, at, order)
            == Times(usage.prompt, input) + Times(usage.completion, output) + ReasoningCharge(p, usage)
  {
  }

  // The rates before tiers.
  function InputAt(p: ModelPricing, at: Cell): real
    requires PeakTokenRatesAt(p.extra, at).Ok?
  {
    var peak := PeakTokenRatesAt(p.extra, at).value;
    OrElse(if peak.Some? then Some(peak.value.input) else None, p.input)
  }

  function OutputAt(p: ModelPricing, at: Cell): real
    requires PeakTokenRatesAt(p.extra, at).Ok?
  {
    var peak := PeakTokenRatesAt(p.extra, at).value;
    OrElse(if peak.Some? then Some(peak.value.output) else None, p.output)
  }

  // Before tiers, the gateway's rates are the upstream rates in force.
  lemma BaseRatesFollowSchedule(row: Row, s: Schedule, windows: seq<PeakWindow>, at: Cell)
    requires Converted(row, s, windows) && IsCell(at)
    ensures Number(InForce(s, at).input).Some? && Number(InForce(s, at).output).Some?
    ensures var p := FromRow(Convert(row, s, windows));
            && p.input.Some? && p.output.Some? && PeakTokenRatesAt(p.extra, at).Ok?
            && InputAt(p, at) == Number(InForce(s, at).input).value
            && OutputAt(p, at) == Number(InForce(s, at).output).value
  {
    ParsedRatesAreRates(row);
    ConvertedBaseRates(row, s, windows);
    LookupFollowsSchedule(row, s, windows, at);
  }

  /** End to end: for an accepted row without a live tier at this prompt size, the charge at any
      hour of the week is the token counts times the upstream rates in force then -- plus the
      reasoning charge, which no schedule touches -- whatever order the map is iterated in. */
  lemma ConvertedRowChargesUpstreamRates(row: Row, s: Schedule, windows: seq<PeakWindow>, usage: Usage, at: Cell, order: seq<Entry>)
    requires Converted(row, s, windows) && IsCell(at)
    requires IsOrder(order, FromRow(Convert(row, s, windows)).extra)
    requires NoLiveTier(row, INPUT_TIER, usage.prompt) && NoLiveTier(row, OUTPUT_TIER, usage.prompt)
    ensures Number(InForce(s, at).input).Some? && Number(InForce(s, at).output).Some?
    ensures var p := FromRow(Convert(row, s, windows));
            CostAt(p, usage, at, order) == Times(usage.prompt, Number(InForce(s, at).input).value)
                                           + Times(usage.completion, Number(InForce(s, at).output).value)
                                           + ReasoningCharge(p, usage)
  {
    BaseRatesFollowSchedule(row, s, windows, at);
    var input, output := Number(InForce(s, at).input).value, Number(InForce(s, at).output).value;
    NoTierNoChange(row, s, windows, order, input, INPUT_TIER, usage.prompt);
    NoTierNoChange(row, s, windows, order, output, OUTPUT_TIER, usage.prompt);
    ChargeByRates(FromRow(Convert(row, s, windows)), usage, at, order, input, output);
  }
}
