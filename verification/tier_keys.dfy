/** How tier keys are read: the spelling of a threshold and the number the price database takes it for. */
module TierKeys {
  import opened Wrappers
  import opened Json
  import opened OffPeak
  import opened Pricing

  function Decimal(n: nat): (s: string)
    ensures s != [] && forall c | c in s :: IsDigit(c)
  {
    if n < 10 then [Digit(n)] else Decimal(n / 10) + [Digit(n % 10)]
  }

  // The key of a tier: a rate, the threshold in units or thousands, and what follows it.
  function TierKey(field: string, n: nat, thousands: bool, tail: string): string {
    field + "_above_" + (Decimal(n) + Unit(thousands) + tail)
  }

  function Unit(thousands: bool): string {
    if thousands then "k" else ""
  }

  // The number ends with the key or at one of the two patterns, whatever comes behind that.
  predicate IsTail(tail: string) {
    tail == "" || "_tokens" <= tail || "_above_" <= tail
  }

  lemma {:induction false} DecimalReadsBack(n: nat)
    ensures DigitsValue(Decimal(n)) == Some(n)
  {
    var s, init := Decimal(n), Decimal(n)[..|Decimal(n)| - 1];
    if n < 10 {
      assert init == [] && DigitsValue(init) == Some(0);
    } else {
      DecimalReadsBack(n / 10);
      assert init == Decimal(n / 10);
    }
    assert s[|s| - 1] == Digit(n % 10);
  }

  lemma DecimalParses(n: nat)
    ensures ParseU32(Decimal(n)) == if n < U32_LIMIT then Some(n) else None
  {
    var s, plus := Decimal(n), "+";
    DecimalReadsBack(n);
    assert IsDigit(s[0]) && plus[0] == '+';
    assert !(plus <= s);
  }

  // ---- occurrences of the two patterns ----

  lemma NotAPrefix(s: string)
    requires |s| < 2 || s[0] != '_' || s[1] != 'a'
    ensures !("_above_" <= s)
  {
    var pattern := "_above_";
    assert |pattern| == 7 && pattern[0] == '_' && pattern[1] == 'a';
  }

  // No underscore of the text is followed by an 'a', the next text included.
  predicate StartsNoTier(s: string, next: char) {
    forall i | 0 <= i < |s| :: !IsTierStart(s, i, next)
  }

  predicate IsTierStart(s: string, i: nat, next: char)
    requires i < |s|
  {
    s[i] == '_' && (if i + 1 < |s| then s[i + 1] else next) == 'a'
  }

  lemma {:induction false} CutAt(a: string, b: string)
    requires StartsNoTier(a, '_')
    ensures Cut(a + "_above_" + b, "_above_") == Some((a, b))
    decreases |a|
  {
    var s := a + "_above_" + b;
    if a == [] {
      assert s == "_above_" + b;
    } else {
      assert !IsTierStart(a, 0, '_');
      TailStartsNoTier(a, '_');
      CutAt(a[1..], b);
      assert s[1..] == a[1..] + "_above_" + b;
      assert s[0] == a[0] && (1 < |a| ==> s[1] == a[1]) && a == [a[0]] + a[1..];
      assert |a| == 1 ==> s[1] == "_above_"[0] == '_';
      NotAPrefix(s);
    }
  }

  lemma TailStartsNoTier(s: string, next: char)
    requires s != [] && StartsNoTier(s, next)
    ensures StartsNoTier(s[1..], next)
  {
    var tail := s[1..];
    forall i | 0 <= i < |tail| ensures !IsTierStart(tail, i, next) {
      assert !IsTierStart(s, i + 1, next);
    }
  }

  function Behind(head: string, cut: Option<(string, string)>): Option<(string, string)> {
    match cut
    case None => None
    case Some((before, after)) => Some((head + before, after))
  }

  lemma BehindBoth(c: char, tail: string, cut: Option<(string, string)>)
    ensures Behind([c], Behind(tail, cut)) == Behind([c] + tail, cut)
  {
    if cut.Some? {
      assert [c] + (tail + cut.value.0) == [c] + tail + cut.value.0;
    }
  }

  lemma CutOne(c: char, rest: string)
    requires |rest| == 0 || c != '_' || rest[0] != 'a'
    ensures Cut([c] + rest, "_above_") == Behind([c], Cut(rest, "_above_"))
  {
    var s := [c] + rest;
    NotAPrefix(s);
    assert s[1..] == rest;
  }

  lemma Regroup(head: string, rest: string)
    requires head != []
    ensures [head[0]] + (head[1..] + rest) == head + rest && [head[0]] + head[1..] == head
    ensures 1 < |head| ==> (head[1..] + rest)[0] == head[1]
  {
  }

  // An occurrence of the pattern can only be behind such a text.
  lemma {:induction false} CutBehind(head: string, rest: string)
    requires StartsNoTier(head, 'a')
    ensures Cut(head + rest, "_above_") == Behind(head, Cut(rest, "_above_"))
  {
    if head == [] {
      assert head + rest == rest;
      NothingInFront(Cut(rest, "_above_"));
    } else {
      var c, tail := head[0], head[1..];
      TailStartsNoTier(head, 'a');
      assert !IsTierStart(head, 0, 'a');
      CutBehind(tail, rest);
      Regroup(head, rest);
      CutOne(c, tail + rest);
      BehindBoth(c, tail, Cut(rest, "_above_"));
    }
  }

  lemma NothingInFront(cut: Option<(string, string)>)
    ensures Behind("", cut) == cut
  {
    if cut.Some? {
      assert "" + cut.value.0 == cut.value.0;
    }
  }

  lemma UpToBehind(head: string, rest: string)
    requires StartsNoTier(head, 'a')
    ensures UpTo(head + rest, "_above_") == head + UpTo(rest, "_above_")
  {
    CutBehind(head, rest);
  }

  lemma {:induction false} CutSuffix(a: string, rest: string)
    requires '_' !in a
    ensures UpTo(a, "_tokens") == a && Cut(a, "_tokens") == None
    ensures UpTo(a + "_tokens" + rest, "_tokens") == a
    ensures Cut(a + "_tokens" + rest, "_tokens") == Some((a, rest))
  {
    var s, pattern := a + "_tokens" + rest, "_tokens";
    assert |pattern| == 7 && pattern[0] == '_';
    if a == [] {
      assert s == pattern + rest && pattern <= s && s[|pattern|..] == rest;
    } else {
      CutSuffix(a[1..], rest);
      assert s[1..] == a[1..] + pattern + rest && s[0] == a[0] && a == [a[0]] + a[1..];
      assert a[0] in a && !(pattern <= s) && !(pattern <= a);
    }
  }

  lemma FieldsStartNoTier(field: string)
    requires field in FIELDS
    ensures StartsNoTier(field, '_')
  {
  }

  // The text between the prefix and the tail.
  lemma ThresholdText(number: string, tail: string)
    requires '_' !in number && IsTail(tail)
    ensures UpTo(UpTo(number + tail, "_above_"), "_tokens") == number
  {
    NoUnderscore(number);
    CutSuffix(number, "");
    if tail == "" {
      UpToBehind(number, "");
      assert number + "" == number && UpTo("", "_above_") == "";
    } else if "_tokens" <= tail {
      var suffix := "_tokens";
      assert |suffix| == 7 && tail == suffix + tail[7..];
      BehindSuffix(number, tail[7..]);
    } else {
      var rest := tail[7..];
      CutAt(number, rest);
      assert number + tail == number + "_above_" + rest;
    }
  }

  lemma BehindSuffix(number: string, rest: string)
    requires '_' !in number
    ensures UpTo(UpTo(number + ("_tokens" + rest), "_above_"), "_tokens") == number
  {
    var head, pattern := number + "_tokens", "_tokens";
    assert |pattern| == 7 && pattern[0] == '_' && pattern[1] == 't' && pattern[6] == 's';
    OneUnderscore(number);
    assert StartsNoTier(head, 'a');
    UpToBehind(head, rest);
    assert number + (pattern + rest) == head + rest;
    CutSuffix(number, UpTo(rest, "_above_"));
  }

  lemma NoUnderscore(number: string)
    requires '_' !in number
    ensures StartsNoTier(number, 'a') && StartsNoTier(number, '_')
  {
    assert forall i | 0 <= i < |number| :: number[i] in number;
  }

  lemma OneUnderscore(number: string)
    requires '_' !in number
    ensures forall i | 0 <= i < |number| :: number[i] != '_'
    ensures forall i | 0 <= i < |number + "_tokens"| && i != |number| :: (number + "_tokens")[i] != '_'
  {
    assert forall i | 0 <= i < |number| :: number[i] in number;
    var tail := "_tokens";
    assert forall i | 0 < i < |tail| :: tail[i] != '_';
  }

  /** A spelled threshold is read as the number it spells, in units or thousands, whatever
      follows "_tokens" or a second "_above_"; numbers beyond 32 bits are no threshold, and
      thousands wrap there. */
  lemma ThresholdReadsBack(field: string, n: nat, thousands: bool, tail: string)
    requires field in FIELDS && IsTail(tail)
    ensures ExtractTierThreshold(TierKey(field, n, thousands, tail))
            == if n >= U32_LIMIT then None else Some(if thousands then n * 1000 % U32_LIMIT else n)
  {
    var number := Decimal(n) + Unit(thousands);
    FieldsStartNoTier(field);
    CutAt(field, number + tail);
    assert '_' !in number by {
      assert forall c | c in number :: c in Decimal(n) || c == 'k';
    }
    ThresholdText(number, tail);
    NumberReads(n, thousands);
  }

  lemma NumberReads(n: nat, thousands: bool)
    ensures var number := Decimal(n) + Unit(thousands);
            && (EndsWith(number, "k") <==> thousands)
            && ParseU32(if thousands then number[..|number| - 1] else number) == if n < U32_LIMIT then Some(n) else None
  {
    var number, k := Decimal(n) + Unit(thousands), "k";
    DecimalParses(n);
    assert |k| == 1 && k[0] == 'k';
    if thousands {
      assert number[|number| - 1..] == k && number[..|number| - 1] == Decimal(n);
    } else {
      assert number == Decimal(n) && number[|number| - 1] in number;
      assert number[|number| - 1..][0] == number[|number| - 1] != k[0];
    }
  }

  /** The threshold that counts is the one spelled exactly while it fits 32 bits. */
  lemma ThousandsWrapBeyond32Bits(field: string, n: nat, tail: string)
    requires field in FIELDS && IsTail(tail)
    ensures ExtractTierThreshold(TierKey(field, n, true, tail)) == Some(n * 1000) <==> n * 1000 < U32_LIMIT
  {
    ThresholdReadsBack(field, n, true, tail);
    WrapsBeyond(n * 1000);
  }

  lemma WrapsBeyond(x: nat)
    ensures x % U32_LIMIT == x <==> x < U32_LIMIT
  {
  }

  // ---- two keys with one threshold ----

  lemma PrefixOfKey(field: string, n: nat, thousands: bool, tail: string)
    ensures StartsWith(TierKey(field, n, thousands, tail), field + "_above_")
  {
  }

  lemma SameHeadOtherTail(head: string, tail: string, tail': string)
    requires tail != tail'
    ensures head + tail != head + tail'
  {
    assert (head + tail)[|head|..] == tail && (head + tail')[|head|..] == tail';
  }

  lemma TailsMakeKeys(field: string, n: nat, thousands: bool, tail: string, tail': string)
    requires tail != tail'
    ensures TierKey(field, n, thousands, tail) != TierKey(field, n, thousands, tail')
  {
    var number, prefix := Decimal(n) + Unit(thousands), field + "_above_";
    SameHeadOtherTail(number, tail, tail');
    SameHeadOtherTail(prefix, number + tail, number + tail');
  }

  /** Two keys with one threshold: the selected rate depends on the order of the map exactly when
      the tier is live and the rates differ. */
  lemma CollidingKeysSplitTheRate(k: string, k': string, prefix: string, t: nat, v: real, v': real, prompt: nat, base: real)
    requires k != k' && StartsWith(k, prefix) && StartsWith(k', prefix)
    requires ExtractTierThreshold(k) == ExtractTierThreshold(k') == Some(t)
    ensures OrderIndependent(map[k := Json.Float(v), k' := Json.Float(v')], prefix, prompt, base) <==> prompt <= t || v == v'
  {
    var extra: Row := map[k := Json.Float(v), k' := Json.Float(v')];
    OrderIndependentIff(extra, prefix, prompt, base);
    LiveTierOf(k, prefix, t, v, prompt);
    LiveTierOf(k', prefix, t, v', prompt);
    assert extra[k] == Json.Float(v) && extra[k'] == Json.Float(v');
    assert IsTop(extra, prefix, prompt, t);
  }

  lemma LiveTierOf(k: string, prefix: string, t: nat, v: real, prompt: nat)
    requires StartsWith(k, prefix) && ExtractTierThreshold(k) == Some(t)
    ensures LiveTier((k, Json.Float(v)), prefix, prompt) == if prompt > t then Some((t, v)) else None
  {
  }

  /** The keys that the catalog carries: a threshold for ordinary requests, and the same one for
      priority requests. */
  lemma PriorityKeySplitsTheRate(field: string, n: nat, thousands: bool, v: real, v': real, prompt: nat, base: real)
    requires field in FIELDS && n < U32_LIMIT
    ensures var key, priority := TierKey(field, n, thousands, "_tokens"), TierKey(field, n, thousands, "_tokens_priority");
            var t := if thousands then n * 1000 % U32_LIMIT else n;
            OrderIndependent(map[key := Json.Float(v), priority := Json.Float(v')], field + "_above_", prompt, base)
            <==> prompt <= t || v == v'
  {
    var tail, tail' := "_tokens", "_tokens_priority";
    assert |tail| == 7 && |tail'| == 16 && tail <= tail';
    ThresholdReadsBack(field, n, thousands, tail);
    ThresholdReadsBack(field, n, thousands, tail');
    TailsMakeKeys(field, n, thousands, tail, tail');
    PrefixOfKey(field, n, thousands, tail);
    PrefixOfKey(field, n, thousands, tail');
    CollidingKeysSplitTheRate(TierKey(field, n, thousands, tail), TierKey(field, n, thousands, tail'), field + "_above_",
                              if thousands then n * 1000 % U32_LIMIT else n, v, v', prompt, base);
  }

  /** Thousands and units can spell one threshold, too. */
  lemma ThousandsAndUnitsCollide(field: string, n: nat)
    requires field in FIELDS && n * 1000 < U32_LIMIT
    ensures TierKey(field, n, true, "_tokens") != TierKey(field, n * 1000, false, "_tokens")
    ensures ExtractTierThreshold(TierKey(field, n, true, "_tokens"))
            == ExtractTierThreshold(TierKey(field, n * 1000, false, "_tokens")) == Some(n * 1000)
  {
    var tail := "_tokens";
    ThresholdReadsBack(field, n, true, tail);
    ThresholdReadsBack(field, n * 1000, false, tail);
    WrapsBeyond(n * 1000);
    BeforeTail(field, Decimal(n) + Unit(true), tail);
    BeforeTail(field, Decimal(n * 1000) + Unit(false), tail);
    var digits := Decimal(n * 1000);
    assert digits + Unit(false) == digits && digits[|digits| - 1] in digits;
  }

  lemma BeforeTail(field: string, number: string, tail: string)
    requires number != []
    ensures var key := field + "_above_" + (number + tail);
            |key| > |tail| && key[|key| - |tail| - 1] == number[|number| - 1]
  {
  }
}
