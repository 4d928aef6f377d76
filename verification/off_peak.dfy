/** The calendar compiler: off-peak windows on the vendor's calendar become peak windows in UTC. */
module OffPeak {
  import opened Wrappers
  import opened Json

  const INPUT := "input_cost_per_token"
  const OUTPUT := "output_cost_per_token"
  const CACHE_READ := "cache_read_input_token_cost"
  const FIELDS: set<string> := {INPUT, OUTPUT, CACHE_READ}
  const OFF_PEAK := "off_peak_pricing"
  const TIME_OF_USE := "time_of_use_pricing"
  const DAY_NAMES := ["monday", "tuesday", "wednesday", "thursday", "friday", "saturday", "sunday"]

  // A half-open range of UTC hours.
  datatype Span = Span(start: nat, end: nat)

  // An upstream window: UTC hours on the listed days of the vendor's calendar.
  datatype Window = Window(spans: seq<Span>, days: set<int>)

  // An emitted window: UTC hours on the listed UTC days.
  datatype PeakWindow = PeakWindow(weekdays: seq<int>, start: nat, end: nat)

  datatype Rates = Rates(input: Json, output: Json, cacheRead: Json)

  // A validated declaration.
  datatype Schedule = Schedule(windows: seq<Window>, offset: nat, offRates: Rates, peakRates: Rates)

  datatype Rejection = Conflicting | Unsupported | Tiered | BadRate | BadWindows | BadWindow

  type Cell = (int, int) // weekday 1..7 and hour 0..23, in UTC

  predicate IsCell(c: Cell) {
    1 <= c.0 <= 7 && 0 <= c.1 < 24
  }

  // ---- validation ----

  predicate StartsWith(s: string, prefix: string) {
    prefix <= s
  }

  predicate EndsWith(s: string, suffix: string) {
    |suffix| <= |s| && s[|s| - |suffix|..] == suffix
  }

  predicate IsTierKey(key: string) {
    (exists f | f in FIELDS :: StartsWith(key, f + "_above_")) && EndsWith(key, "_tokens")
  }

  predicate HasTiers(row: Row) {
    "tiered_pricing" in row || exists key | key in row :: IsTierKey(key)
  }

  predicate IsRate(j: Option<Json>) {
    j.Some? && Number(j.value).Some? && Number(j.value).value >= 0.0
  }

  predicate HasRates(fields: Row) {
    forall f | f in FIELDS :: IsRate(Get(fields, f))
  }

  function RatesOf(fields: Row): Rates
    requires HasRates(fields)
  {
    Rates(fields[INPUT], fields[OUTPUT], fields[CACHE_READ])
  }

  function Offset(timezone: Json): Option<nat> {
    if timezone == Str("UTC") then Some(0)
    else if timezone == Str("Asia/Shanghai") then Some(8)
    else None
  }

  function IndexOf(names: seq<string>, name: string): (i: nat)
    ensures i <= |names| && (i < |names| ==> names[i] == name) && (i == |names| <==> name !in names)
  {
    if names == [] || names[0] == name then 0 else 1 + IndexOf(names[1..], name)
  }

  function ParseDay(j: Json): Option<int> {
    match j
    case Str(s) => if s in DAY_NAMES then Some(IndexOf(DAY_NAMES, s) + 1) else None
    case Int(n) => if 1 <= n <= 7 then Some(n) else None
    case _ => None
  }

  function ParseDays(days: seq<Json>): Option<set<int>> {
    if days == [] then Some({})
    else match (ParseDays(days[..|days| - 1]), ParseDay(days[|days| - 1]))
      case (Some(ds), Some(d)) => Some(ds + {d})
      case _ => None
  }

  predicate IsDigit(c: char) {
    '0' <= c <= '9'
  }

  function Digit(d: nat): char
    requires d < 10
  {
    '0' + d as char
  }

  function ParseHour(a: char, b: char): Option<nat> {
    if (a == '0' || a == '1') && IsDigit(b) then Some((a as int - '0' as int) * 10 + b as int - '0' as int)
    else if a == '2' && '0' <= b <= '3' then Some(20 + b as int - '0' as int)
    else None
  }

  // "HH:00-HH:00", where an end of 00 is the end of the day.
  function ParseSpan(j: Json): Option<Span> {
    if !j.Str? || |j.s| != 11 || j.s[2..6] != ":00-" || j.s[8..] != ":00" then None
    else match (ParseHour(j.s[0], j.s[1]), ParseHour(j.s[6], j.s[7]))
      case (Some(start), Some(end)) =>
        var end := if end == 0 then 24 else end;
        if start < end then Some(Span(start, end)) else None
      case _ => None
  }

  function ParseSpans(hours: seq<Json>): Option<seq<Span>> {
    if hours == [] then Some([])
    else match (ParseSpans(hours[..|hours| - 1]), ParseSpan(hours[|hours| - 1]))
      case (Some(ss), Some(s)) => Some(ss + [s])
      case _ => None
  }

  function HourList(hours: Option<Json>): seq<Json> {
    match hours
    case Some(Str(s)) => [Str(s)]
    case Some(List(items)) => items
    case _ => []
  }

  function ParseWindow(j: Json): Option<Window> {
    if !j.Obj? || !(j.fields.Keys <= {"hours_utc", "weekdays"}) then None
    else match Get(j.fields, "weekdays")
      case Some(List(days)) =>
        var hours := HourList(Get(j.fields, "hours_utc"));
        if days == [] || hours == [] then None
        else (match (ParseDays(days), ParseSpans(hours))
          case (Some(ds), Some(spans)) => Some(Window(spans, ds))
          case _ => None)
      case _ => None
  }

  function ParseWindows(ws: seq<Json>): Option<seq<Window>> {
    if ws == [] then Some([])
    else match (ParseWindows(ws[..|ws| - 1]), ParseWindow(ws[|ws| - 1]))
      case (Some(parsed), Some(w)) => Some(parsed + [w])
      case _ => None
  }

  // The declared windows; without any, the bare hours apply on every day.
  function WindowList(off: Row): Json {
    match Get(off, "windows")
    case None => DefaultWindows(off)
    case Some(Null) => DefaultWindows(off)
    case Some(j) => j
  }

  function DefaultWindows(off: Row): Json {
    var hours := if "hours_utc" in off then off["hours_utc"] else Null;
    List([Obj(map["hours_utc" := hours, "weekdays" := List(seq(7, i requires 0 <= i < 7 => Str(DAY_NAMES[i])))])])
  }

  function Timezone(off: Row): Json {
    if "weekday_timezone" in off then off["weekday_timezone"] else Str("UTC")
  }

  /** The declaration, validated in the source's order; the first failing check decides. */
  function Parse(row: Row): Result<Schedule, Rejection>
    requires OFF_PEAK in row
  {
    if !row[OFF_PEAK].Obj? || TIME_OF_USE in row then Err(Conflicting) else
    var off := row[OFF_PEAK].fields;
    if !(off.Keys <= FIELDS + {"hours_utc", "windows", "weekday_timezone"})
       || Offset(Timezone(off)).None? || ("hours_utc" in off && "windows" in off) then Err(Unsupported)
    else if HasTiers(row) then Err(Tiered)
    else if !HasRates(row) || !HasRates(off) then Err(BadRate)
    else match WindowList(off)
      case List(ws) =>
        if ws == [] then Err(BadWindows)
        else (match ParseWindows(ws)
          case Some(windows) => Ok(Schedule(windows, Offset(Timezone(off)).value, RatesOf(off), RatesOf(row)))
          case None => Err(BadWindow))
      case _ => Err(BadWindows)
  }

  // ---- what the declaration means ----

  /** The vendor's weekday at hour t of the UTC week, on a calendar ahead by `offset` hours. */
  function VendorDay(t: nat, offset: nat): int {
    (t + offset) / 24 % 7 + 1
  }

  predicate Covers(w: Window, offset: nat, c: Cell)
    requires IsCell(c)
  {
    && VendorDay((c.0 - 1) * 24 + c.1, offset) in w.days
    && exists s | s in w.spans :: s.start <= c.1 < s.end
  }

  predicate AnyCovers(windows: seq<Window>, offset: nat, c: Cell)
    requires IsCell(c)
  {
    exists w | w in windows :: Covers(w, offset, c)
  }

  // ---- the compiled form ----

  // [start, end) is a maximal run of peak hours on the day.
  predicate IsRun(off: set<Cell>, day: int, start: int, end: int) {
    && 0 <= start < end <= 24
    && (forall h | start <= h < end :: (day, h) !in off)
    && (start == 0 || (day, start - 1) in off)
    && (end == 24 || (day, end) in off)
  }

  predicate Before(a: PeakWindow, b: PeakWindow) {
    a.start < b.start || (a.start == b.start && a.end < b.end)
  }

  predicate Ascending(days: seq<int>) {
    forall i, j | 0 <= i < j < |days| :: days[i] < days[j]
  }

  /** The one list of windows that compiles `off`: ordered by hours, each hour range once, on
      exactly the days on which it is a maximal run, in ascending order. */
  ghost predicate Compiles(windows: seq<PeakWindow>, off: set<Cell>) {
    && (forall i, j | 0 <= i < j < |windows| :: Before(windows[i], windows[j]))
    && (forall w | w in windows :: w.weekdays != [] && Ascending(w.weekdays)
                                   && forall d | d in w.weekdays :: 1 <= d <= 7 && IsRun(off, d, w.start, w.end))
    && (forall d, s: nat, e: nat | 1 <= d <= 7 && IsRun(off, d, s, e) ::
          exists w | w in windows :: w.start == s && w.end == e && d in w.weekdays)
  }

  function EncodeWindow(w: PeakWindow): Json {
    Obj(map["weekdays" := List(seq(|w.weekdays|, i requires 0 <= i < |w.weekdays| => Int(w.weekdays[i]))),
            "start_hour" := Int(w.start), "end_hour" := Int(w.end)])
  }

  function EncodeRates(r: Rates): Json {
    Obj(map[INPUT := r.input, OUTPUT := r.output, CACHE_READ := r.cacheRead])
  }

  function EncodeTimeOfUse(windows: seq<PeakWindow>, peak: Rates): Json {
    Obj(map["timezone" := Str("UTC"),
            "peak_windows" := List(seq(|windows|, i requires 0 <= i < |windows| => EncodeWindow(windows[i]))),
            "peak_rates" := EncodeRates(peak)])
  }

  // The converted row: off-peak rates become the scalar rates, the row's own rates the peak ones.
  function Convert(row: Row, s: Schedule, windows: seq<PeakWindow>): Row {
    var base := (row - {OFF_PEAK})[INPUT := s.offRates.input][OUTPUT := s.offRates.output][CACHE_READ := s.offRates.cacheRead];
    if windows == [] then base else base[TIME_OF_USE := EncodeTimeOfUse(windows, s.peakRates)]
  }
}
