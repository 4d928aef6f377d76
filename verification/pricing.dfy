/** Token prices at run time: tier keys, the fold that selects a tier, and the token cost. */
module Pricing {
  import opened Wrappers
  import opened Json
  import opened OffPeak
  import opened TimeOfUse

  const U32_LIMIT := 0x1_0000_0000

  type Entry = (string, Json)

  // The text around the first occurrence of the pattern.
  function Cut(s: string, pattern: string): Option<(string, string)>
    requires pattern != []
  {
    if pattern <= s then Some(([], s[|pattern|..]))
    else if s == [] then None
    else match Cut(s[1..], pattern)
      case None => None
      case Some((before, after)) => Some(([s[0]] + before, after))
  }

  function UpTo(s: string, pattern: string): string
    requires pattern != []
  {
    match Cut(s, pattern)
    case None => s
    case Some((before, _)) => before
  }

  function DigitsValue(s: string): Option<nat> {
    if s == [] then Some(0)
    else if !IsDigit(s[|s| - 1]) then None
    else match DigitsValue(s[..|s| - 1])
      case None => None
      case Some(n) => Some(n * 10 + s[|s| - 1] as int - '0' as int)
  }

  // Unsigned 32-bit parsing: an optional plus sign, at least one digit, no overflow.
  function ParseU32(s: string): (r: Option<nat>)
    ensures r.Some? ==> r.value < U32_LIMIT
  {
    var digits := if "+" <= s then s[1..] else s;
    if digits == [] then None
    else match DigitsValue(digits)
      case None => None
      case Some(n) => if n < U32_LIMIT then Some(n) else None
  }

  // The factor for a trailing k wraps at 32 bits, as the release build does.
  function ExtractTierThreshold(key: string): Option<nat> {
    match Cut(key, "_above_")
    case None => None
    case Some((_, rest)) =>
      var threshold := UpTo(UpTo(rest, "_above_"), "_tokens");
      if EndsWith(threshold, "k")
      then (match ParseU32(threshold[..|threshold| - 1])
        case None => None
        case Some(n) => Some(n * 1000 % U32_LIMIT))
      else ParseU32(threshold)
  }

  // A numeric entry under the prefix, as a threshold with its rate.
  function Tier(e: Entry, prefix: string): Option<(nat, real)> {
    if !StartsWith(e.0, prefix) then None
    else match (ExtractTierThreshold(e.0), Number(e.1))
      case (Some(threshold), Some(rate)) => Some((threshold, rate))
      case _ => None
  }

  function LiveTier(e: Entry, prefix: string, prompt: nat): Option<(nat, real)> {
    match Tier(e, prefix)
    case Some((threshold, rate)) => if prompt > threshold then Some((threshold, rate)) else None
    case None => None
  }

  // The maximum by threshold over the entries in iteration order; of equal ones the last.
  function BestTier(entries: seq<Entry>, prefix: string, prompt: nat): Option<(nat, real)> {
    if entries == [] then None
    else
      var best := BestTier(entries[..|entries| - 1], prefix, prompt);
      match LiveTier(entries[|entries| - 1], prefix, prompt)
      case None => best
      case Some(t) => if best.None? || best.value.0 <= t.0 then Some(t) else best
  }

  function TieredCostPerToken(entries: seq<Entry>, base: real, prefix: string, prompt: nat): real {
    match BestTier(entries, prefix, prompt)
    case None => base
    case Some((_, rate)) => rate
  }

  // The entries of the map, each once, in some order.
  ghost predicate IsOrder(entries: seq<Entry>, extra: Row) {
    && (forall i, j | 0 <= i < j < |entries| :: entries[i].0 != entries[j].0)
    && (forall e | e in entries :: e.0 in extra && extra[e.0] == e.1)
    && (forall key | key in extra :: (key, extra[key]) in entries)
  }

  /** The fold selects a live tier whose threshold no live tier exceeds, and none only if no
      tier is live: the greatest threshold strictly below the prompt size. */
  lemma {:induction false} BestTierIsGreatest(entries: seq<Entry>, prefix: string, prompt: nat)
    ensures var best := BestTier(entries, prefix, prompt);
            && (best.None? <==> forall e | e in entries :: LiveTier(e, prefix, prompt).None?)
            && (best.Some? ==> exists e | e in entries :: LiveTier(e, prefix, prompt) == best)
            && (best.Some? ==> best.value.0 < prompt && forall e | e in entries ::
                  LiveTier(e, prefix, prompt).Some? ==> LiveTier(e, prefix, prompt).value.0 <= best.value.0)
  {
    if entries != [] {
      var init, last := entries[..|entries| - 1], entries[|entries| - 1];
      BestTierIsGreatest(init, prefix, prompt);
      assert entries == init + [last] && last in entries && forall e | e in init :: e in entries;
    }
  }

  // Live tiers that share the greatest threshold agree on the rate.
  ghost predicate TopTiersAgree(extra: Row, prefix: string, prompt: nat) {
    forall k, k' | k in extra && k' in extra ::
      var t, t' := LiveTier((k, extra[k]), prefix, prompt), LiveTier((k', extra[k']), prefix, prompt);
      t.Some? && t'.Some? && t.value.0 == t'.value.0 && IsTop(extra, prefix, prompt, t.value.0) ==> t.value.1 == t'.value.1
  }

  ghost predicate IsTop(extra: Row, prefix: string, prompt: nat, threshold: nat) {
    forall k | k in extra ::
      var t := LiveTier((k, extra[k]), prefix, prompt);
      t.Some? ==> t.value.0 <= threshold
  }

  // The fold over any iteration order, as a property of the map alone.
  lemma BestTierOfMap(o: seq<Entry>, extra: Row, prefix: string, prompt: nat)
    requires IsOrder(o, extra)
    ensures var best := BestTier(o, prefix, prompt);
            && (best.None? <==> forall k | k in extra :: LiveTier((k, extra[k]), prefix, prompt).None?)
            && (best.Some? ==> IsTop(extra, prefix, prompt, best.value.0)
                               && exists k | k in extra :: LiveTier((k, extra[k]), prefix, prompt) == best)
  {
    BestTierIsGreatest(o, prefix, prompt);
    var best := BestTier(o, prefix, prompt);
    assert forall k | k in extra :: (k, extra[k]) in o;
    assert forall e | e in o :: e.0 in extra && e == (e.0, extra[e.0]);
  }

  lemma AgreeingTiersFixTheRate(extra: Row, prefix: string, prompt: nat, base: real, o: seq<Entry>, o': seq<Entry>)
    requires TopTiersAgree(extra, prefix, prompt) && IsOrder(o, extra) && IsOrder(o', extra)
    ensures TieredCostPerToken(o, base, prefix, prompt) == TieredCostPerToken(o', base, prefix, prompt)
  {
    BestTierOfMap(o, extra, prefix, prompt);
    BestTierOfMap(o', extra, prefix, prompt);
  }

  lemma {:induction false} AnOrder(extra: Row) returns (o: seq<Entry>)
    ensures IsOrder(o, extra)
    decreases |extra|
  {
    if extra == map[] {
      o := [];
    } else {
      var last :| last in extra;
      WithoutOne(extra, last);
      var init := AnOrder(extra - {last});
      OrderOfMore(init, extra - {last}, last, extra);
      o := init + [(last, extra[last])];
    }
  }

  lemma AnOrderEndingIn(extra: Row, last: string) returns (o: seq<Entry>)
    requires last in extra
    ensures IsOrder(o, extra) && o != [] && o[|o| - 1] == (last, extra[last])
  {
    WithoutOne(extra, last);
    var init := AnOrder(extra - {last});
    OrderOfMore(init, extra - {last}, last, extra);
    o := init + [(last, extra[last])];
  }

  lemma WithoutOne(extra: Row, last: string)
    requires last in extra
    ensures var rest := extra - {last};
            && last !in rest && extra.Keys == rest.Keys + {last} && |rest| < |extra|
            && forall key | key in rest :: extra[key] == rest[key]
  {
    var rest := extra - {last};
    assert rest.Keys == extra.Keys - {last};
    assert |rest| == |rest.Keys| && |extra| == |extra.Keys|;
  }

  lemma OrderOfMore(init: seq<Entry>, rest: Row, last: string, extra: Row)
    requires IsOrder(init, rest) && last in extra && last !in rest
    requires extra.Keys == rest.Keys + {last} && forall key | key in rest :: extra[key] == rest[key]
    ensures IsOrder(init + [(last, extra[last])], extra)
  {
    var o := init + [(last, extra[last])];
    forall key | key in extra ensures (key, extra[key]) in o {
      assert key != last ==> (key, rest[key]) in init;
    }
    assert forall i | 0 <= i < |init| :: o[i] == init[i] && init[i] in init;
    assert forall e | e in o :: e in init || e == (last, extra[last]);
  }

  lemma DisagreeingTiersSplitTheRate(extra: Row, prefix: string, prompt: nat, base: real, k: string, k': string)
    returns (o: seq<Entry>, o': seq<Entry>)
    requires k in extra && k' in extra
    requires LiveTier((k, extra[k]), prefix, prompt).Some? && LiveTier((k', extra[k']), prefix, prompt).Some?
    requires LiveTier((k, extra[k]), prefix, prompt).value.0 == LiveTier((k', extra[k']), prefix, prompt).value.0
    requires LiveTier((k, extra[k]), prefix, prompt).value.1 != LiveTier((k', extra[k']), prefix, prompt).value.1
    requires IsTop(extra, prefix, prompt, LiveTier((k, extra[k]), prefix, prompt).value.0)
    ensures IsOrder(o, extra) && IsOrder(o', extra)
    ensures TieredCostPerToken(o, base, prefix, prompt) != TieredCostPerToken(o', base, prefix, prompt)
  {
    o := AnOrderEndingIn(extra, k);
    o' := AnOrderEndingIn(extra, k');
    LastTopTierWins(o, extra, prefix, prompt);
    LastTopTierWins(o', extra, prefix, prompt);
  }

  ghost predicate OrderIndependent(extra: Row, prefix: string, prompt: nat, base: real) {
    forall o, o' | IsOrder(o, extra) && IsOrder(o', extra) ::
      TieredCostPerToken(o, base, prefix, prompt) == TieredCostPerToken(o', base, prefix, prompt)
  }

  /** The selected rate is independent of the map's iteration order exactly when the live tiers
      with the greatest threshold agree; two spellings of one threshold are the failing case. */
  lemma OrderIndependentIff(extra: Row, prefix: string, prompt: nat, base: real)
    ensures TopTiersAgree(extra, prefix, prompt) <==> OrderIndependent(extra, prefix, prompt, base)
  {
    if TopTiersAgree(extra, prefix, prompt) {
      forall o, o' | IsOrder(o, extra) && IsOrder(o', extra)
        ensures TieredCostPerToken(o, base, prefix, prompt) == TieredCostPerToken(o', base, prefix, prompt)
      {
        AgreeingTiersFixTheRate(extra, prefix, prompt, base, o, o');
      }
    } else {
      var k, k' :| k in extra && k' in extra
                   && var t, t' := LiveTier((k, extra[k]), prefix, prompt), LiveTier((k', extra[k']), prefix, prompt);
                   t.Some? && t'.Some? && t.value.0 == t'.value.0 && IsTop(extra, prefix, prompt, t.value.0)
                   && t.value.1 != t'.value.1;
      var o, o' := DisagreeingTiersSplitTheRate(extra, prefix, prompt, base, k, k');
    }
  }

  // Tiers that some prompt can reach and that share a threshold agree on the rate.
  ghost predicate EqualThresholdsAgree(extra: Row, prefix: string) {
    forall k, k' | k in extra && k' in extra :: !Disagree(extra, prefix, k, k')
  }

  predicate Disagree(extra: Row, prefix: string, k: string, k': string)
    requires k in extra && k' in extra
  {
    var t, t' := Tier((k, extra[k]), prefix), Tier((k', extra[k']), prefix);
    t.Some? && t'.Some? && t.value.0 == t'.value.0 < U32_LIMIT - 1 && t.value.1 != t'.value.1
  }

  /** Over all prompts of 32 bits: the rate never depends on the iteration order if and only if no
      two tier keys of the map spell one threshold with different rates. */
  lemma AlwaysOrderIndependentIff(extra: Row, prefix: string, base: real)
    ensures EqualThresholdsAgree(extra, prefix) <==>
            forall prompt: nat | prompt < U32_LIMIT :: OrderIndependent(extra, prefix, prompt, base)
  {
    if EqualThresholdsAgree(extra, prefix) {
      forall prompt: nat | prompt < U32_LIMIT ensures OrderIndependent(extra, prefix, prompt, base) {
        AgreeingRow(extra, prefix, prompt);
        OrderIndependentIff(extra, prefix, prompt, base);
      }
    } else {
      var k, k' :| k in extra && k' in extra && Disagree(extra, prefix, k, k');
      var prompt := Tier((k, extra[k]), prefix).value.0 + 1;
      DisagreeingRow(extra, prefix, k, k');
      OrderIndependentIff(extra, prefix, prompt, base);
    }
  }

  lemma AgreeingRow(extra: Row, prefix: string, prompt: nat)
    requires EqualThresholdsAgree(extra, prefix) && prompt < U32_LIMIT
    ensures TopTiersAgree(extra, prefix, prompt)
  {
    forall k, k' | k in extra && k' in extra ensures
      var t, t' := LiveTier((k, extra[k]), prefix, prompt), LiveTier((k', extra[k']), prefix, prompt);
      t.Some? && t'.Some? && t.value.0 == t'.value.0 ==> t.value.1 == t'.value.1
    {
      assert !Disagree(extra, prefix, k, k');
    }
  }

  lemma DisagreeingRow(extra: Row, prefix: string, k: string, k': string)
    requires k in extra && k' in extra && Disagree(extra, prefix, k, k')
    ensures !TopTiersAgree(extra, prefix, Tier((k, extra[k]), prefix).value.0 + 1)
  {
    TopRightAbove(extra, prefix, Tier((k, extra[k]), prefix).value.0);
  }

  // For the prompt right above a threshold, no live tier has a greater one.
  lemma TopRightAbove(extra: Row, prefix: string, t: nat)
    ensures IsTop(extra, prefix, t + 1, t)
  {
  }

  lemma LastTopTierWins(o: seq<Entry>, extra: Row, prefix: string, prompt: nat)
    requires IsOrder(o, extra) && o != []
    requires LiveTier(o[|o| - 1], prefix, prompt).Some?
    requires IsTop(extra, prefix, prompt, LiveTier(o[|o| - 1], prefix, prompt).value.0)
    ensures BestTier(o, prefix, prompt) == LiveTier(o[|o| - 1], prefix, prompt)
  {
    var init := o[..|o| - 1];
    BestTierIsGreatest(init, prefix, prompt);
    if BestTier(init, prefix, prompt).Some? {
      var e :| e in init && LiveTier(e, prefix, prompt) == BestTier(init, prefix, prompt);
      assert e in o && (e.0, extra[e.0]) == e;
    }
  }

  ghost predicate TiersRise(entries: seq<Entry>, base: real, prefix: string) {
    && (forall e | e in entries :: Tier(e, prefix).Some? ==> base <= Tier(e, prefix).value.1)
    && (forall e, e' | e in entries && e' in entries ::
          Tier(e, prefix).Some? && Tier(e', prefix).Some? && Tier(e, prefix).value.0 <= Tier(e', prefix).value.0 ==>
            Tier(e, prefix).value.1 <= Tier(e', prefix).value.1)
  }

  lemma RateIsMonotone(entries: seq<Entry>, base: real, prefix: string, p: nat, p': nat)
    requires TiersRise(entries, base, prefix) && 0.0 <= base && p <= p'
    ensures base <= TieredCostPerToken(entries, base, prefix, p) <= TieredCostPerToken(entries, base, prefix, p')
  {
    BestTierIsGreatest(entries, prefix, p);
    BestTierIsGreatest(entries, prefix, p');
    var best := BestTier(entries, prefix, p);
    assert best.Some? ==> exists e | e in entries :: LiveTier(e, prefix, p) == best && LiveTier(e, prefix, p') == best;
  }

  function TokenCharge(entries: seq<Entry>, base: real, prefix: string, prompt: nat): real {
    Times(prompt, TieredCostPerToken(entries, base, prefix, prompt))
  }

  function Times(tokens: nat, rate: real): real {
    tokens as real * rate
  }

  /** With tier rates that rise with the threshold from the base, a larger prompt never costs less. */
  lemma TokenCostIsMonotone(entries: seq<Entry>, base: real, prefix: string, p: nat, p': nat)
    requires TiersRise(entries, base, prefix) && 0.0 <= base && p <= p'
    ensures TokenCharge(entries, base, prefix, p) <= TokenCharge(entries, base, prefix, p')
  {
    RateIsMonotone(entries, base, prefix, p, p');
    ScaleIsMonotone(p, p', TieredCostPerToken(entries, base, prefix, p), TieredCostPerToken(entries, base, prefix, p'));
  }

  lemma ScaleIsMonotone(p: nat, p': nat, r: real, r': real)
    requires p <= p' && 0.0 <= r <= r'
    ensures Times(p, r) <= Times(p', r')
  {
    var x, x' := p as real, p' as real;
    assert 0.0 <= x <= x';
    MulMonotone(x, x', r, r');
  }

  lemma MulMonotone(x: real, x': real, r: real, r': real)
    requires 0.0 <= x <= x' && 0.0 <= r <= r'
    ensures x * r <= x' * r'
  {
    assert x * r <= x * r';
    assert x * r' <= x' * r';
  }

  // ---- token cost ----

  datatype Usage = Usage(prompt: nat, completion: nat, reasoning: Option<nat>)

  datatype ModelPricing = ModelPricing(
    mode: string, input: Option<real>, output: Option<real>, costPerSecond: Option<real>, extra: Row)

  function ExtraNumber(extra: Row, key: string): Option<real> {
    if key in extra then Number(extra[key]) else None
  }

  predicate HasNonTokenPricing(p: ModelPricing) {
    p.costPerSecond.Some?
    || ExtraNumber(p.extra, "video_cost_per_second").Some? || ExtraNumber(p.extra, "audio_cost_per_second").Some?
    || ExtraNumber(p.extra, "image_cost_per_token").Some? || ExtraNumber(p.extra, "output_cost_per_image").Some?
  }

  predicate RequiresBothSides(p: ModelPricing) {
    p.mode == "chat" || p.mode == "completion" || (p.mode == "" && !HasNonTokenPricing(p))
  }

  function OrElse(a: Option<real>, b: Option<real>): real {
    if a.Some? then a.value else if b.Some? then b.value else 0.0
  }

  function ReasoningCharge(p: ModelPricing, usage: Usage): real {
    match usage.reasoning
    case None => 0.0
    case Some(tokens) => Times(tokens, OrElse(ExtraNumber(p.extra, "output_cost_per_reasoning_token"), None))
  }

  // `order` is the order in which the runtime happens to iterate `extra`.
  function CostAt(p: ModelPricing, usage: Usage, at: Cell, order: seq<Entry>): real {
    if RequiresBothSides(p) && (p.input.None? || p.output.None?) then 0.0
    else match PeakTokenRatesAt(p.extra, at)
      case Err(_) => 0.0
      case Ok(peak) =>
        var baseInput := OrElse(if peak.Some? then Some(peak.value.input) else None, p.input);
        var baseOutput := OrElse(if peak.Some? then Some(peak.value.output) else None, p.output);
        Times(usage.prompt, TieredCostPerToken(order, baseInput, INPUT + "_above_", usage.prompt))
        + Times(usage.completion, TieredCostPerToken(order, baseOutput, OUTPUT + "_above_", usage.prompt))
        + ReasoningCharge(p, usage)
  }
}
