/** When a price from the database of src/core/pricing.rs follows the schedule of a converted row,
    exactly. The script refuses tier keys that end in "_tokens"; the database reads a threshold
    from any key with the prefix. */
module PriceExactness {
  import opened Wrappers
  import opened Json
  import opened OffPeak
  import opened TimeOfUse
  import opened Pricing
  import opened TierKeys
  import opened PriceEndToEnd

  // The two rates of a price.
  datatype Side = In | Out

  function FieldOf(side: Side): string {
    if side.In? then INPUT else OUTPUT
  }

  function PrefixOf(side: Side): string {
    FieldOf(side) + "_above_"
  }

  // The upstream rate in force at the hour.
  function Scheduled(s: Schedule, side: Side, at: Cell): Option<real>
    requires IsCell(at)
  {
    Number(if side.In? then InForce(s, at).input else InForce(s, at).output)
  }

  // The rate that the price database charges, if it charges at all.
  function Charged(p: ModelPricing, side: Side, at: Cell, order: seq<Entry>, prompt: nat): Option<real> {
    if PeakTokenRatesAt(p.extra, at).Err? then None
    else Some(TieredCostPerToken(order, if side.In? then InputAt(p, at) else OutputAt(p, at), PrefixOf(side), prompt))
  }

  /** The cost is made of the two charged rates. */
  lemma CostOfChargedRates(p: ModelPricing, usage: Usage, at: Cell, order: seq<Entry>)
    requires p.input.Some? && p.output.Some? && PeakTokenRatesAt(p.extra, at).Ok?
    ensures CostAt(p, usage, at, order) == Times(usage.prompt, Charged(p, In, at, order, usage.prompt).value)
                                           + Times(usage.completion, Charged(p, Out, at, order, usage.prompt).value)
                                           + ReasoningCharge(p, usage)
  {
  }

  // What the gateway keeps of the converted row.
  function Record(row: Row, s: Schedule, windows: seq<PeakWindow>): ModelPricing {
    FromRow(Convert(row, s, windows))
  }

  // ---- the tiers of a converted row are those of the row ----

  lemma PrefixLengths(side: Side, k: string)
    requires StartsWith(k, PrefixOf(side))
    ensures |k| >= 27 && k[0] != 't' && k[0] != 'c'
    ensures k !in {OFF_PEAK, TIME_OF_USE, CACHE_READ, INPUT, OUTPUT, "tiered_pricing"}
  {
    assert |INPUT| == 20 && |OUTPUT| == 21 && |OFF_PEAK| == 16 && |TIME_OF_USE| == 19 && |CACHE_READ| == 27;
    assert |PrefixOf(side)| >= 27 && k[0] == PrefixOf(side)[0];
    assert INPUT[0] == 'i' && OUTPUT[0] == 'o' && CACHE_READ[0] == 'c' && |"tiered_pricing"| == 14;
  }

  lemma TierKeysSurvive(row: Row, s: Schedule, windows: seq<PeakWindow>, side: Side, k: string)
    requires k in row && StartsWith(k, PrefixOf(side))
    ensures k in Record(row, s, windows).extra && Record(row, s, windows).extra[k] == row[k]
  {
    PrefixLengths(side, k);
    NotARecordField(side, k);
  }

  lemma NotARecordField(side: Side, k: string)
    requires StartsWith(k, PrefixOf(side))
    ensures k !in RECORD_FIELDS
  {
    assert |k| >= 27 && (k[0] == 'i' || k[0] == 'o');
  }

  // Every live tier of the row is live for the price database, and the other way round.
  lemma SameLiveTiers(row: Row, s: Schedule, windows: seq<PeakWindow>, side: Side, prompt: nat, k: string)
    ensures var extra := Record(row, s, windows).extra;
            && (k in row && LiveTier((k, row[k]), PrefixOf(side), prompt).Some? ==> k in extra && extra[k] == row[k])
            && (k in extra && LiveTier((k, extra[k]), PrefixOf(side), prompt).Some? ==> k in row && extra[k] == row[k])
  {
    if StartsWith(k, PrefixOf(side)) {
      if k in row {
        TierKeysSurvive(row, s, windows, side, k);
      }
      if k in Record(row, s, windows).extra {
        ConversionAddsNoTiers(row, s, windows, PrefixOf(side), prompt, k);
      }
    }
  }

  // A live tier of the row supplies the rate, whatever the base.
  lemma LiveTierWins(row: Row, s: Schedule, windows: seq<PeakWindow>, side: Side, prompt: nat, order: seq<Entry>)
    returns (k: string)
    requires IsOrder(order, Record(row, s, windows).extra)
    requires !NoLiveTier(row, PrefixOf(side), prompt)
    ensures k in row && BestTier(order, PrefixOf(side), prompt) == LiveTier((k, row[k]), PrefixOf(side), prompt) != None
  {
    var extra, prefix := Record(row, s, windows).extra, PrefixOf(side);
    var live :| live in row && LiveTier((live, row[live]), prefix, prompt).Some?;
    SameLiveTiers(row, s, windows, side, prompt, live);
    BestTierOfMap(order, extra, prefix, prompt);
    k :| k in extra && LiveTier((k, extra[k]), prefix, prompt) == BestTier(order, prefix, prompt);
    SameLiveTiers(row, s, windows, side, prompt, k);
  }

  // Without a live tier the rate is the scheduled one; with one it is the rate of some live tier.
  lemma ChargedRate(row: Row, s: Schedule, windows: seq<PeakWindow>, side: Side, prompt: nat, at: Cell, order: seq<Entry>)
    requires Converted(row, s, windows) && IsCell(at) && IsOrder(order, Record(row, s, windows).extra)
    ensures Scheduled(s, side, at).Some?
    ensures var charged := Charged(Record(row, s, windows), side, at, order, prompt);
            if NoLiveTier(row, PrefixOf(side), prompt) then charged == Scheduled(s, side, at)
            else exists k | k in row :: HasRate(row, k, side, prompt, charged)
  {
    BaseRatesFollowSchedule(row, s, windows, at);
    if NoLiveTier(row, PrefixOf(side), prompt) {
      NoTierNoChange(row, s, windows, order, Scheduled(s, side, at).value, PrefixOf(side), prompt);
    } else {
      var k := LiveTierWins(row, s, windows, side, prompt, order);
      assert HasRate(row, k, side, prompt, Charged(Record(row, s, windows), side, at, order, prompt));
    }
  }

  predicate HasRate(row: Row, k: string, side: Side, prompt: nat, rate: Option<real>)
    requires k in row
  {
    var t := LiveTier((k, row[k]), PrefixOf(side), prompt);
    t.Some? && rate == Some(t.value.1)
  }

  // ---- one request ----

  ghost predicate TiersDiffer(row: Row, s: Schedule, side: Side, prompt: nat, at: Cell)
    requires IsCell(at)
  {
    forall k | k in row :: !HasRate(row, k, side, prompt, Scheduled(s, side, at))
  }

  /** When the rates of the row's tiers differ from the scheduled ones, a request is charged the
      scheduled rates, on both sides, if and only if no tier of the row is live for it on either
      side. */
  lemma ScheduleDecidesIffNoLiveTier(row: Row, s: Schedule, windows: seq<PeakWindow>, prompt: nat, at: Cell, order: seq<Entry>)
    requires Converted(row, s, windows) && IsCell(at) && IsOrder(order, Record(row, s, windows).extra)
    requires forall side: Side :: TiersDiffer(row, s, side, prompt, at)
    ensures forall side: Side :: Charged(Record(row, s, windows), side, at, order, prompt) == Scheduled(s, side, at)
                                 <==> NoLiveTier(row, PrefixOf(side), prompt)
  {
    forall side: Side
      ensures Charged(Record(row, s, windows), side, at, order, prompt) == Scheduled(s, side, at)
              <==> NoLiveTier(row, PrefixOf(side), prompt)
    {
      ChargedRate(row, s, windows, side, prompt, at, order);
      assert TiersDiffer(row, s, side, prompt, at);
    }
  }

  // ---- all requests ----

  // Prompts are counted in 32 bits.
  ghost predicate ScheduleDecides(row: Row, s: Schedule, windows: seq<PeakWindow>) {
    forall side: Side, prompt: nat, at: Cell, order: seq<Entry>
      | prompt < U32_LIMIT && IsCell(at) && IsOrder(order, Record(row, s, windows).extra) ::
      FollowsSchedule(row, s, windows, side, prompt, at, order)
  }

  predicate FollowsSchedule(row: Row, s: Schedule, windows: seq<PeakWindow>, side: Side, prompt: nat, at: Cell, order: seq<Entry>)
    requires IsCell(at)
  {
    Charged(Record(row, s, windows), side, at, order, prompt) == Scheduled(s, side, at)
  }

  // A key that the price database takes for a tier which some prompt can reach has, at every hour, the
  // very rate that the schedule has.
  ghost predicate IsHarmless(row: Row, s: Schedule, side: Side, k: string)
    requires k in row
  {
    var t := Tier((k, row[k]), PrefixOf(side));
    t.Some? && t.value.0 < U32_LIMIT - 1 ==> forall at: Cell | IsCell(at) :: Scheduled(s, side, at) == Some(t.value.1)
  }

  /** The schedule of an accepted row decides the price of every request, at every hour and in
      every map order, if and only if every key of the row that reads as a tier is harmless. */
  lemma ScheduleDecidesIffTiersAreHarmless(row: Row, s: Schedule, windows: seq<PeakWindow>)
    requires Converted(row, s, windows)
    ensures ScheduleDecides(row, s, windows) <==> forall side: Side, k | k in row :: IsHarmless(row, s, side, k)
  {
    if forall side: Side, k | k in row :: IsHarmless(row, s, side, k) {
      forall side: Side, prompt: nat, at: Cell, order: seq<Entry>
        | prompt < U32_LIMIT && IsCell(at) && IsOrder(order, Record(row, s, windows).extra)
        ensures FollowsSchedule(row, s, windows, side, prompt, at, order)
      {
        HarmlessTiersKeepTheRate(row, s, windows, side, prompt, at, order);
      }
    }
    if ScheduleDecides(row, s, windows) {
      forall side: Side, k | k in row ensures IsHarmless(row, s, side, k) {
        DecidedRowIsHarmless(row, s, windows, side, k);
      }
    }
  }

  lemma HarmlessTiersKeepTheRate(
    row: Row, s: Schedule, windows: seq<PeakWindow>, side: Side, prompt: nat, at: Cell, order: seq<Entry>)
    requires Converted(row, s, windows) && IsCell(at) && IsOrder(order, Record(row, s, windows).extra)
    requires prompt < U32_LIMIT && forall k | k in row :: IsHarmless(row, s, side, k)
    ensures FollowsSchedule(row, s, windows, side, prompt, at, order)
  {
    ChargedRate(row, s, windows, side, prompt, at, order);
    if !NoLiveTier(row, PrefixOf(side), prompt) {
      var k :| k in row && HasRate(row, k, side, prompt, Charged(Record(row, s, windows), side, at, order, prompt));
      assert IsHarmless(row, s, side, k);
    }
  }

  // The prompt just above a tier's threshold, with the tier iterated last, is charged its rate.
  lemma TierIsReached(p: ModelPricing, side: Side, k: string, tier: (nat, real), at: Cell) returns (order: seq<Entry>)
    requires k in p.extra && Tier((k, p.extra[k]), PrefixOf(side)) == Some(tier) && PeakTokenRatesAt(p.extra, at).Ok?
    ensures IsOrder(order, p.extra) && Charged(p, side, at, order, tier.0 + 1) == Some(tier.1)
  {
    order := AnOrderEndingIn(p.extra, k);
    TopRightAbove(p.extra, PrefixOf(side), tier.0);
    LastTopTierWins(order, p.extra, PrefixOf(side), tier.0 + 1);
  }

  lemma DecidedRowIsHarmless(row: Row, s: Schedule, windows: seq<PeakWindow>, side: Side, k: string)
    requires Converted(row, s, windows) && ScheduleDecides(row, s, windows) && k in row
    ensures IsHarmless(row, s, side, k)
  {
    var t := Tier((k, row[k]), PrefixOf(side));
    if t.Some? && t.value.0 < U32_LIMIT - 1 {
      TierKeysSurvive(row, s, windows, side, k);
      forall at: Cell | IsCell(at) ensures Scheduled(s, side, at) == Some(t.value.1) {
        ScheduledRateIsReached(row, s, windows, side, k, t.value, at);
      }
    }
  }

  lemma ScheduledRateIsReached(
    row: Row, s: Schedule, windows: seq<PeakWindow>, side: Side, k: string, tier: (nat, real), at: Cell)
    requires Converted(row, s, windows) && ScheduleDecides(row, s, windows) && IsCell(at) && tier.0 < U32_LIMIT - 1
    requires k in Record(row, s, windows).extra && Tier((k, Record(row, s, windows).extra[k]), PrefixOf(side)) == Some(tier)
    ensures Scheduled(s, side, at) == Some(tier.1)
  {
    BaseRatesFollowSchedule(row, s, windows, at);
    var order := TierIsReached(Record(row, s, windows), side, k, tier, at);
    assert FollowsSchedule(row, s, windows, side, tier.0 + 1, at, order);
  }

  // ---- the price ----

  // The price by the upstream rates in force.
  predicate PaysScheduled(row: Row, s: Schedule, windows: seq<PeakWindow>, usage: Usage, at: Cell, order: seq<Entry>)
    requires IsCell(at)
  {
    && Scheduled(s, In, at).Some? && Scheduled(s, Out, at).Some?
    && CostAt(Record(row, s, windows), usage, at, order)
       == Times(usage.prompt, Scheduled(s, In, at).value) + Times(usage.completion, Scheduled(s, Out, at).value)
          + ReasoningCharge(Record(row, s, windows), usage)
  }

  ghost predicate PriceFollowsSchedule(row: Row, s: Schedule, windows: seq<PeakWindow>) {
    forall usage: Usage, at: Cell, order: seq<Entry>
      | usage.prompt < U32_LIMIT && usage.completion < U32_LIMIT && IsCell(at) && IsOrder(order, Record(row, s, windows).extra) ::
      PaysScheduled(row, s, windows, usage, at, order)
  }

  lemma ScheduledRatesPay(row: Row, s: Schedule, windows: seq<PeakWindow>, usage: Usage, at: Cell, order: seq<Entry>)
    requires Converted(row, s, windows) && IsCell(at) && IsOrder(order, Record(row, s, windows).extra)
    requires forall side: Side :: FollowsSchedule(row, s, windows, side, usage.prompt, at, order)
    ensures PaysScheduled(row, s, windows, usage, at, order)
  {
    BaseRatesFollowSchedule(row, s, windows, at);
    CostOfChargedRates(Record(row, s, windows), usage, at, order);
    assert FollowsSchedule(row, s, windows, In, usage.prompt, at, order);
    assert FollowsSchedule(row, s, windows, Out, usage.prompt, at, order);
  }

  // The prices of a prompt alone and of a prompt with one more token tell the two rates.
  lemma PricesTellTheRates(
    row: Row, s: Schedule, windows: seq<PeakWindow>, side: Side, prompt: nat, at: Cell, order: seq<Entry>)
    requires Converted(row, s, windows) && IsCell(at) && IsOrder(order, Record(row, s, windows).extra) && prompt > 0
    requires PaysScheduled(row, s, windows, Usage(prompt, 0, None), at, order)
    requires PaysScheduled(row, s, windows, Usage(prompt, 1, None), at, order)
    ensures FollowsSchedule(row, s, windows, side, prompt, at, order)
  {
    var p := Record(row, s, windows);
    BaseRatesFollowSchedule(row, s, windows, at);
    CostOfChargedRates(p, Usage(prompt, 0, None), at, order);
    CostOfChargedRates(p, Usage(prompt, 1, None), at, order);
    RatesAreTold(prompt, Charged(p, In, at, order, prompt).value, Charged(p, Out, at, order, prompt).value,
                 Scheduled(s, In, at).value, Scheduled(s, Out, at).value);
  }

  lemma RatesAreTold(prompt: nat, input: real, output: real, input': real, output': real)
    requires prompt > 0
    requires Times(prompt, input) + Times(0, output) == Times(prompt, input') + Times(0, output')
    requires Times(prompt, input) + Times(1, output) == Times(prompt, input') + Times(1, output')
    ensures input == input' && output == output'
  {
    TimesIsInjective(prompt, input, input');
  }

  lemma TimesIsInjective(n: nat, a: real, b: real)
    requires n > 0 && Times(n, a) == Times(n, b)
    ensures a == b
  {
    var x := n as real;
    assert x > 0.0 && x * a == x * b;
    assert x * (a - b) == 0.0;
  }

  /** The price of every request, at every hour and in every map order, is the one by the upstream
      rates in force, if and only if every key of the row that reads as a tier is harmless. */
  lemma PriceFollowsIffTiersAreHarmless(row: Row, s: Schedule, windows: seq<PeakWindow>)
    requires Converted(row, s, windows)
    ensures PriceFollowsSchedule(row, s, windows) <==> forall side: Side, k | k in row :: IsHarmless(row, s, side, k)
  {
    ScheduleDecidesIffTiersAreHarmless(row, s, windows);
    if ScheduleDecides(row, s, windows) {
      forall usage: Usage, at: Cell, order: seq<Entry>
        | usage.prompt < U32_LIMIT && usage.completion < U32_LIMIT && IsCell(at) && IsOrder(order, Record(row, s, windows).extra)
        ensures PaysScheduled(row, s, windows, usage, at, order)
      {
        ScheduledRatesPay(row, s, windows, usage, at, order);
      }
    }
    if PriceFollowsSchedule(row, s, windows) {
      forall side: Side, prompt: nat, at: Cell, order: seq<Entry>
        | prompt < U32_LIMIT && IsCell(at) && IsOrder(order, Record(row, s, windows).extra)
        ensures FollowsSchedule(row, s, windows, side, prompt, at, order)
      {
        FollowedPriceFollows(row, s, windows, side, prompt, at, order);
      }
    }
  }

  lemma FollowedPriceFollows(
    row: Row, s: Schedule, windows: seq<PeakWindow>, side: Side, prompt: nat, at: Cell, order: seq<Entry>)
    requires Converted(row, s, windows) && PriceFollowsSchedule(row, s, windows)
    requires prompt < U32_LIMIT && IsCell(at) && IsOrder(order, Record(row, s, windows).extra)
    ensures FollowsSchedule(row, s, windows, side, prompt, at, order)
  {
    if prompt == 0 {
      ChargedRate(row, s, windows, side, prompt, at, order);
      assert NoLiveTier(row, PrefixOf(side), 0);
    } else {
      assert PaysScheduled(row, s, windows, Usage(prompt, 0, None), at, order);
      assert PaysScheduled(row, s, windows, Usage(prompt, 1, None), at, order);
      PricesTellTheRates(row, s, windows, side, prompt, at, order);
    }
  }

  // ---- the rows the script lets through although a tier of theirs is live ----

  lemma LastCharacters(s: string, suffix: string)
    requires s != [] && suffix != [] && s[|s| - 1] != suffix[|suffix| - 1]
    ensures !EndsWith(s, suffix)
  {
    assert |suffix| <= |s| ==> s[|s| - |suffix|..][|suffix| - 1] == s[|s| - 1];
  }

  /** The keys that the script overlooks: a threshold without the suffix, or with something
      behind it. To the price database each is a tier. */
  lemma OverlookedKeyIsATier(side: Side, n: nat, thousands: bool, tail: string, v: real)
    requires IsTail(tail) && n < U32_LIMIT && !EndsWith(TierKey(FieldOf(side), n, thousands, tail), "_tokens")
    ensures var key := TierKey(FieldOf(side), n, thousands, tail);
            && !IsTierKey(key)
            && Tier((key, Float(v)), PrefixOf(side)) == Some((if thousands then n * 1000 % U32_LIMIT else n, v))
  {
    ThresholdReadsBack(FieldOf(side), n, thousands, tail);
    PrefixOfKey(FieldOf(side), n, thousands, tail);
  }

  /** For instance every threshold without a suffix, and every one for priority requests. */
  lemma OverlookedTails(side: Side, n: nat, thousands: bool)
    ensures IsTail("") && !EndsWith(TierKey(FieldOf(side), n, thousands, ""), "_tokens")
    ensures IsTail("_tokens_priority") && !EndsWith(TierKey(FieldOf(side), n, thousands, "_tokens_priority"), "_tokens")
  {
    var suffix, tail, number := "_tokens", "_tokens_priority", Decimal(n) + Unit(thousands);
    assert |suffix| == 7 && suffix[6] == 's' && |tail| == 16 && tail[15] == 'y' && suffix <= tail;
    BeforeTail(FieldOf(side), number, "");
    assert number[|number| - 1] in number && forall c | c in number :: c in Decimal(n) || c == 'k';
    LastCharacters(TierKey(FieldOf(side), n, thousands, ""), suffix);
    LastCharacters(TierKey(FieldOf(side), n, thousands, tail), suffix);
  }

  /** Adding such a key leaves acceptance and schedule as they were, and from then on prompts
      beyond its threshold pay its rate at every hour. */
  lemma OverlookedTierOverridesSchedule(
    row: Row, s: Schedule, windows: seq<PeakWindow>, side: Side, k: string, v: real, prompt: nat, at: Cell, order: seq<Entry>)
    requires Converted(row, s, windows) && IsCell(at)
    requires k !in row && !IsTierKey(k) && LiveTier((k, Float(v)), PrefixOf(side), prompt).Some?
    requires NoLiveTier(row, PrefixOf(side), prompt)
    requires IsOrder(order, Record(row[k := Float(v)], s, windows).extra)
    ensures Converted(row[k := Float(v)], s, windows)
    ensures Charged(Record(row[k := Float(v)], s, windows), side, at, order, prompt) == Some(v)
  {
    var row' := row[k := Float(v)];
    OverlookedKeyKeepsSchedule(row, side, k, v);
    ChargedRate(row', s, windows, side, prompt, at, order);
    assert LiveTier((k, row'[k]), PrefixOf(side), prompt).Some?;
    var k' :| k' in row' && HasRate(row', k', side, prompt, Charged(Record(row', s, windows), side, at, order, prompt));
    OnlyNewTier(row, side, k, v, prompt, k');
  }

  lemma OnlyNewTier(row: Row, side: Side, k: string, v: real, prompt: nat, k': string)
    requires k !in row && NoLiveTier(row, PrefixOf(side), prompt) && k' in row[k := Float(v)]
    ensures k' == k || LiveTier((k', row[k := Float(v)][k']), PrefixOf(side), prompt).None?
  {
    if k' != k {
      assert row[k := Float(v)][k'] == row[k'];
    }
  }

  /** To the script it is no key of interest. */
  lemma OverlookedKeyKeepsSchedule(row: Row, side: Side, k: string, v: real)
    requires OFF_PEAK in row && StartsWith(k, PrefixOf(side)) && !IsTierKey(k)
    ensures Parse(row[k := Float(v)]) == Parse(row)
  {
    var row' := row[k := Float(v)];
    PrefixLengths(side, k);
    assert row'[OFF_PEAK] == row[OFF_PEAK] && (TIME_OF_USE in row' <==> TIME_OF_USE in row);
    assert HasTiers(row') == HasTiers(row);
    assert Get(row', INPUT) == Get(row, INPUT) && Get(row', OUTPUT) == Get(row, OUTPUT) && Get(row', CACHE_READ) == Get(row, CACHE_READ);
    ParseDependsOnFields(row, row');
  }

  lemma ParseDependsOnFields(row: Row, row': Row)
    requires OFF_PEAK in row && OFF_PEAK in row' && row'[OFF_PEAK] == row[OFF_PEAK]
    requires (TIME_OF_USE in row' <==> TIME_OF_USE in row) && HasTiers(row') == HasTiers(row)
    requires Get(row', INPUT) == Get(row, INPUT) && Get(row', OUTPUT) == Get(row, OUTPUT) && Get(row', CACHE_READ) == Get(row, CACHE_READ)
    ensures Parse(row') == Parse(row)
  {
    SameRates(row, row');
  }

  lemma SameRates(row: Row, row': Row)
    requires Get(row', INPUT) == Get(row, INPUT) && Get(row', OUTPUT) == Get(row, OUTPUT) && Get(row', CACHE_READ) == Get(row, CACHE_READ)
    ensures HasRates(row') == HasRates(row) && (HasRates(row) ==> RatesOf(row') == RatesOf(row))
  {
  }

  // A concrete row: off-peak on Monday mornings at half the price.
  const EXAMPLE_WINDOW := Obj(map["hours_utc" := Str("00:00-12:00"), "weekdays" := List([Int(1)])])
  const EXAMPLE_OFF_PEAK: Row := map[INPUT := Int(1), OUTPUT := Int(1), CACHE_READ := Int(1), "windows" := List([EXAMPLE_WINDOW])]
  const EXAMPLE_ROW: Row := map[OFF_PEAK := Obj(EXAMPLE_OFF_PEAK), INPUT := Int(2), OUTPUT := Int(2), CACHE_READ := Int(2)]

  lemma SingletonParses(day: Json, span: Json, window: Json)
    ensures ParseDay(day).Some? ==> ParseDays([day]) == Some({ParseDay(day).value})
    ensures ParseSpan(span).Some? ==> ParseSpans([span]) == Some([ParseSpan(span).value])
    ensures ParseWindow(window).Some? ==> ParseWindows([window]) == Some([ParseWindow(window).value])
  {
    var days, spans, windows := [day], [span], [window];
    assert days[..|days| - 1] == [] && spans[..|spans| - 1] == [] && windows[..|windows| - 1] == [];
    assert ParseDays([]) == Some({}) && ParseSpans([]) == Some([]) && ParseWindows([]) == Some([]);
    assert forall d: int :: {} + {d} == {d};
    assert forall x: Span :: [] + [x] == [x];
    assert forall w: Window :: [] + [w] == [w];
  }

  lemma ExampleWindowParses()
    ensures ParseWindows([EXAMPLE_WINDOW]) == Some([Window([Span(0, 12)], {1})])
  {
    var s := "00:00-12:00";
    assert s[2..6] == ":00-" && s[8..] == ":00";
    assert ParseSpan(Str(s)) == Some(Span(0, 12)) && ParseDay(Int(1)) == Some(1);
    SingletonParses(Int(1), Str(s), EXAMPLE_WINDOW);
    assert ParseWindow(EXAMPLE_WINDOW) == Some(Window([Span(0, 12)], {1}));
  }

  lemma NotTierKeys()
    ensures !IsTierKey(OFF_PEAK) && !IsTierKey(INPUT) && !IsTierKey(OUTPUT) && !IsTierKey(CACHE_READ)
  {
    LastCharacters(OFF_PEAK, "_tokens");
    LastCharacters(INPUT, "_tokens");
    LastCharacters(OUTPUT, "_tokens");
    LastCharacters(CACHE_READ, "_tokens");
  }

  lemma ExampleHasNoTiers(side: Side)
    ensures !HasTiers(EXAMPLE_ROW) && forall k | k in EXAMPLE_ROW :: !StartsWith(k, PrefixOf(side))
  {
    ExampleHasNoTierKeys();
    assert EXAMPLE_ROW.Keys == {OFF_PEAK, INPUT, OUTPUT, CACHE_READ};
    forall k | StartsWith(k, PrefixOf(side)) ensures k !in EXAMPLE_ROW {
      PrefixLengths(side, k);
    }
  }

  lemma ExampleHasNoTierKeys()
    ensures !HasTiers(EXAMPLE_ROW)
  {
    NotTierKeys();
    assert EXAMPLE_ROW.Keys == {OFF_PEAK, INPUT, OUTPUT, CACHE_READ};
    assert |"tiered_pricing"| == 14 && |INPUT| == 20 && |OUTPUT| == 21 && |OFF_PEAK| == 16 && |CACHE_READ| == 27;
  }

  /** The family of rows above is not empty on either side: this one is accepted and holds no
      tier, so that every overlooked key takes the price from its schedule. */
  lemma ExampleRowIsAccepted(side: Side, prompt: nat)
    ensures Parse(EXAMPLE_ROW) == Ok(EXAMPLE_SCHEDULE)
    ensures NoLiveTier(EXAMPLE_ROW, PrefixOf(side), prompt)
    ensures forall k | StartsWith(k, PrefixOf(side)) :: k !in EXAMPLE_ROW
  {
    ExampleParses();
    ExampleHasNoTiers(side);
  }

  const EXAMPLE_SCHEDULE :=
    Schedule([Window([Span(0, 12)], {1})], 0, Rates(Int(1), Int(1), Int(1)), Rates(Int(2), Int(2), Int(2)))

  lemma ExampleParses()
    ensures Parse(EXAMPLE_ROW) == Ok(EXAMPLE_SCHEDULE)
  {
    ExampleWindowParses();
    ExampleHasNoTierKeys();
    ExampleFields();
  }

  lemma ExampleFields()
    ensures TIME_OF_USE !in EXAMPLE_ROW && OFF_PEAK in EXAMPLE_ROW && EXAMPLE_ROW[OFF_PEAK] == Obj(EXAMPLE_OFF_PEAK)
    ensures HasRates(EXAMPLE_ROW) && HasRates(EXAMPLE_OFF_PEAK)
    ensures RatesOf(EXAMPLE_OFF_PEAK) == Rates(Int(1), Int(1), Int(1)) && RatesOf(EXAMPLE_ROW) == Rates(Int(2), Int(2), Int(2))
    ensures Timezone(EXAMPLE_OFF_PEAK) == Str("UTC") && "hours_utc" !in EXAMPLE_OFF_PEAK
    ensures WindowList(EXAMPLE_OFF_PEAK) == List([EXAMPLE_WINDOW])
    ensures EXAMPLE_OFF_PEAK.Keys <= FIELDS + {"hours_utc", "windows", "weekday_timezone"}
  {
    assert |TIME_OF_USE| == 19 && |OFF_PEAK| == 16 && |INPUT| == 20 && |OUTPUT| == 21 && |CACHE_READ| == 27;
    assert |"windows"| == 7 && |"hours_utc"| == 9 && |"weekday_timezone"| == 16;
    assert INPUT[0] == 'i' && "weekday_timezone"[0] == 'w' && OFF_PEAK[0] == 'o';
  }
}
