/** The gateway's reading of a time-of-use declaration, and the catalog script's check of it. */
module TimeOfUse {
  import opened Wrappers
  import opened Json
  import opened OffPeak
  import opened OffPeakMeaning

  datatype TokenRates = TokenRates(input: real, output: real, cacheRead: real)

  datatype Pricing = Pricing(windows: seq<PeakWindow>, peak: TokenRates)

  const U8_MAX := 255

  function ReadU8(j: Option<Json>): Option<nat> {
    match j
    case Some(Int(n)) => if 0 <= n <= U8_MAX then Some(n) else None
    case _ => None
  }

  function ReadDays(js: seq<Json>): Option<seq<int>> {
    if js == [] then Some([])
    else match (ReadU8(Some(js[0])), ReadDays(js[1..]))
      case (Some(d), Some(ds)) => Some([d] + ds)
      case _ => None
  }

  // Deserialization of one window; unknown fields are refused.
  function ReadWindow(j: Json): Option<PeakWindow> {
    if !j.Obj? || j.fields.Keys != {"weekdays", "start_hour", "end_hour"} || !j.fields["weekdays"].List? then None
    else match (ReadDays(j.fields["weekdays"].items), ReadU8(Get(j.fields, "start_hour")), ReadU8(Get(j.fields, "end_hour")))
      case (Some(days), Some(start), Some(end)) => Some(PeakWindow(days, start, end))
      case _ => None
  }

  function ReadWindows(js: seq<Json>): Option<seq<PeakWindow>> {
    if js == [] then Some([])
    else match (ReadWindow(js[0]), ReadWindows(js[1..]))
      case (Some(w), Some(ws)) => Some([w] + ws)
      case _ => None
  }

  function ReadRates(j: Json): Option<TokenRates> {
    if !j.Obj? || j.fields.Keys != FIELDS then None
    else match (Number(j.fields[INPUT]), Number(j.fields[OUTPUT]), Number(j.fields[CACHE_READ]))
      case (Some(i), Some(o), Some(c)) => Some(TokenRates(i, o, c))
      case _ => None
  }

  predicate ValidWindow(w: PeakWindow) {
    w.weekdays != [] && (forall d | d in w.weekdays :: 1 <= d <= 7) && w.start < w.end <= 24
  }

  predicate ValidRates(r: TokenRates) {
    r.input >= 0.0 && r.output >= 0.0 && r.cacheRead >= 0.0
  }

  // A missing declaration is fine; a present one is read and validated completely.
  function ParseTimeOfUse(extra: Row): Result<Option<Pricing>, ()> {
    match Get(extra, TIME_OF_USE)
    case None => Ok(None)
    case Some(Obj(f)) =>
      if f.Keys != {"timezone", "peak_windows", "peak_rates"} || !f["timezone"].Str? || !f["peak_windows"].List? then Err(())
      else (match (ReadWindows(f["peak_windows"].items), ReadRates(f["peak_rates"]))
        case (Some(ws), Some(peak)) =>
          if f["timezone"].s == "UTC" && ws != [] && (forall w | w in ws :: ValidWindow(w)) && ValidRates(peak)
          then Ok(Some(Pricing(ws, peak))) else Err(())
        case _ => Err(()))
    case _ => Err(())
  }

  function PeakTokenRatesAt(extra: Row, at: Cell): Result<Option<TokenRates>, ()> {
    match ParseTimeOfUse(extra)
    case Err(e) => Err(e)
    case Ok(None) => Ok(None)
    case Ok(Some(p)) => if exists w | w in p.windows :: Contains(w, at) then Ok(Some(p.peak)) else Ok(None)
  }

  // ---- the catalog script's validator, as far as it looks ----

  predicate ScriptAcceptsWindow(j: Json) {
    && j.Obj?
    && (match (Get(j.fields, "weekdays"), Get(j.fields, "start_hour"), Get(j.fields, "end_hour"))
        case (Some(List(days)), Some(Int(start)), Some(Int(end))) =>
          days != [] && (forall d | d in days :: d.Int? && 1 <= d.n <= 7) && 0 <= start < end <= 24
        case _ => false)
  }

  predicate ScriptAccepts(j: Json) {
    && j.Obj?
    && Get(j.fields, "timezone") == Some(Str("UTC"))
    && (match Get(j.fields, "peak_windows")
        case Some(List(ws)) => ws != [] && forall w | w in ws :: ScriptAcceptsWindow(w)
        case _ => false)
    && (match Get(j.fields, "peak_rates")
        case Some(Obj(rates)) => HasRates(rates)
        case _ => false)
  }

  // ---- what the compiler emits is read back as it was meant ----

  function RatesAsReals(r: Rates): TokenRates
    requires Number(r.input).Some? && Number(r.output).Some? && Number(r.cacheRead).Some?
  {
    TokenRates(Number(r.input).value, Number(r.output).value, Number(r.cacheRead).value)
  }

  lemma {:induction false} DaysReadBack(days: seq<int>, js: seq<Json>)
    requires |js| == |days| && forall i | 0 <= i < |days| :: js[i] == Int(days[i])
    requires forall d | d in days :: 1 <= d <= 7
    ensures ReadDays(js) == Some(days)
  {
    if days != [] {
      assert days[0] in days && days == [days[0]] + days[1..] && forall d | d in days[1..] :: d in days;
      DaysReadBack(days[1..], js[1..]);
    }
  }

  lemma WindowReadsBack(w: PeakWindow)
    requires ValidWindow(w)
    ensures ReadWindow(EncodeWindow(w)) == Some(w)
  {
    DaysReadBack(w.weekdays, EncodeWindow(w).fields["weekdays"].items);
  }

  lemma {:induction false} WindowsReadBack(ws: seq<PeakWindow>, js: seq<Json>)
    requires |js| == |ws| && forall i | 0 <= i < |ws| :: js[i] == EncodeWindow(ws[i])
    requires forall w | w in ws :: ValidWindow(w)
    ensures ReadWindows(js) == Some(ws)
  {
    if ws != [] {
      assert ws[0] in ws && ws == [ws[0]] + ws[1..] && forall w | w in ws[1..] :: w in ws;
      WindowReadsBack(ws[0]);
      WindowsReadBack(ws[1..], js[1..]);
    }
  }

  lemma EncodedWindowIsAccepted(w: PeakWindow)
    requires ValidWindow(w)
    ensures ScriptAcceptsWindow(EncodeWindow(w))
  {
    var days := EncodeWindow(w).fields["weekdays"].items;
    forall d | d in days ensures d.Int? && 1 <= d.n <= 7 {
      var i :| 0 <= i < |days| && d == days[i];
      assert w.weekdays[i] in w.weekdays;
    }
    assert days[0] in days;
  }

  /** Script and gateway agree on the emitted form: reading the encoding of valid windows and
      rates gives those windows and rates, and the script's validator accepts it. */
  lemma EncodingReadsBack(ws: seq<PeakWindow>, peak: Rates, extra: Row)
    requires ws != [] && forall w | w in ws :: ValidWindow(w)
    requires IsRate(Some(peak.input)) && IsRate(Some(peak.output)) && IsRate(Some(peak.cacheRead))
    requires Get(extra, TIME_OF_USE) == Some(EncodeTimeOfUse(ws, peak))
    ensures ParseTimeOfUse(extra) == Ok(Some(Pricing(ws, RatesAsReals(peak))))
    ensures ScriptAccepts(EncodeTimeOfUse(ws, peak))
  {
    var f := EncodeTimeOfUse(ws, peak).fields;
    WindowsReadBack(ws, f["peak_windows"].items);
    forall j | j in f["peak_windows"].items ensures ScriptAcceptsWindow(j) {
      var i :| 0 <= i < |ws| && j == EncodeWindow(ws[i]);
      assert ws[i] in ws;
      EncodedWindowIsAccepted(ws[i]);
    }
  }
}
