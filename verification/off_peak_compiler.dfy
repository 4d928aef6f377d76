/** The compiler's loops, against the declarative description of what they compute. */
module OffPeakCompiler {
  import opened Wrappers
  import opened Json
  import opened OffPeak
  import opened OffPeakParsing

  function OffCells(windows: seq<Window>, offset: nat): (cells: set<Cell>)
    ensures forall c :: c in cells <==> IsCell(c) && AnyCovers(windows, offset, c)
  {
    set d, h | 1 <= d <= 7 && 0 <= h < 24 && AnyCovers(windows, offset, (d, h)) :: (d, h)
  }

  // The weekday arithmetic of the inner loop.
  function LocalDay(day: int, hour: nat, offset: nat): int {
    (day - 1 + (hour + offset) / 24) % 7 + 1
  }

  lemma LocalDayIsVendorDay(day: int, hour: nat, offset: nat)
    requires 1 <= day
    ensures LocalDay(day, hour, offset) == VendorDay((day - 1) * 24 + hour, offset)
  {
    assert ((day - 1) * 24 + hour + offset) / 24 == day - 1 + (hour + offset) / 24;
  }

  // Mark the hours of one span on every day that the vendor's calendar allows.
  method MarkSpan(off0: set<Cell>, span: Span, days: set<int>, offset: nat) returns (off: set<Cell>)
    requires span.end <= 24
    ensures forall c: Cell :: c in off <==>
              c in off0 || (IsCell(c) && span.start <= c.1 < span.end && VendorDay((c.0 - 1) * 24 + c.1, offset) in days)
  {
    off := off0;
    for day := 1 to 8
      invariant forall c: Cell :: c in off <==>
                  c in off0 || (IsCell(c) && c.0 < day && span.start <= c.1 < span.end
                                && VendorDay((c.0 - 1) * 24 + c.1, offset) in days)
    {
      var hour := span.start;
      while hour < span.end
        invariant span.start <= hour && (hour <= span.end || hour == span.start)
        invariant forall c: Cell :: c in off <==>
                    c in off0 || (IsCell(c) && (c.0 < day || (c.0 == day && c.1 < hour)) && span.start <= c.1 < span.end
                                  && VendorDay((c.0 - 1) * 24 + c.1, offset) in days)
      {
        LocalDayIsVendorDay(day, hour, offset);
        if LocalDay(day, hour, offset) in days {
          off := off + {(day, hour)};
        }
        hour := hour + 1;
      }
    }
  }

  predicate SpansInDay(windows: seq<Window>) {
    forall w | w in windows :: forall s | s in w.spans :: s.start < s.end <= 24
  }

  method MarkOffHours(windows: seq<Window>, offset: nat) returns (off: set<Cell>)
    requires SpansInDay(windows)
    ensures off == OffCells(windows, offset)
  {
    off := {};
    for i := 0 to |windows|
      invariant forall c: Cell :: c in off <==> IsCell(c) && AnyCovers(windows[..i], offset, c)
    {
      var w := windows[i];
      ghost var off1 := off;
      for j := 0 to |w.spans|
        invariant forall c: Cell :: c in off <==>
                    c in off1 || (IsCell(c) && Covers(w.(spans := w.spans[..j]), offset, c))
      {
        assert w.spans[..j + 1] == w.spans[..j] + [w.spans[j]];
        off := MarkSpan(off, w.spans[j], w.days, offset);
      }
      assert w.(spans := w.spans[..|w.spans|]) == w;
      assert windows[..i + 1] == windows[..i] + [w];
    }
    assert windows[..|windows|] == windows;
    assert off == OffCells(windows, offset);
  }

  // The days up to n on which [s, e) is a run.
  function RunDays(off: set<Cell>, s: int, e: int, n: nat): (days: seq<int>)
    ensures Ascending(days) && forall d :: d in days <==> 1 <= d <= n && IsRun(off, d, s, e)
  {
    if n == 0 then []
    else
      var earlier := RunDays(off, s, e, n - 1);
      assert forall i | 0 <= i < |earlier| :: earlier[i] in earlier;
      if IsRun(off, n, s, e) then earlier + [n] else earlier
  }

  type Groups = map<(int, int), seq<int>>

  // The runs of the first n days, and of day n + 1 those ending by hour h.
  ghost predicate Grouped(m: Groups, off: set<Cell>, n: nat, h: int) {
    forall s: int, e: int :: GroupedAt(m, off, n, h, s, e)
  }

  ghost predicate GroupedAt(m: Groups, off: set<Cell>, n: nat, h: int, s: int, e: int) {
    var days := RunDays(off, s, e, if 0 < e <= h then n + 1 else n);
    if (s, e) in m then m[(s, e)] == days && days != [] else days == []
  }

  // An off-peak hour ends no run.
  lemma SkipHour(m: Groups, off: set<Cell>, n: nat, h: int)
    requires Grouped(m, off, n, h) && (n + 1, h) in off
    ensures Grouped(m, off, n, h + 1)
  {
    var next := h + 1;
    forall s: int, e: int ensures GroupedAt(m, off, n, next, s, e) {
      assert GroupedAt(m, off, n, h, s, e);
      assert e == h + 1 ==> !IsRun(off, n + 1, s, e);
    }
  }

  // A scanned run is the only one of the day that ends within it.
  lemma AddRun(m: Groups, off: set<Cell>, n: nat, start: int, end: int)
    requires Grouped(m, off, n, start) && IsRun(off, n + 1, start, end)
    ensures var days := if (start, end) in m then m[(start, end)] else [];
            Grouped(m[(start, end) := days + [n + 1]], off, n, end)
  {
    var days := if (start, end) in m then m[(start, end)] else [];
    var m' := m[(start, end) := days + [n + 1]];
    forall s: int, e: int ensures GroupedAt(m', off, n, end, s, e) {
      assert GroupedAt(m, off, n, start, s, e);
      if start < e <= end && IsRun(off, n + 1, s, e) {
        RunsAreApart(off, n + 1, s, e, start, end);
      }
    }
  }

  // Two runs of a day that share or touch an hour are the same run.
  lemma RunsAreApart(off: set<Cell>, day: int, s: int, e: int, s': int, e': int)
    requires IsRun(off, day, s, e) && IsRun(off, day, s', e')
    ensures (s == s' && e == e') || e < s' || e' < s
  {
    assert s <= e' < e ==> (day, e') !in off;
    assert s' <= e < e' ==> (day, e) !in off;
    assert s <= s' - 1 < e ==> (day, s' - 1) !in off;
    assert s' <= s - 1 < e' ==> (day, s - 1) !in off;
    assert e == s' ==> (day, e) !in off;
    assert e' == s ==> (day, e') !in off;
  }

  // After hour 24 the day is done.
  lemma EndDay(m: Groups, off: set<Cell>, n: nat)
    requires Grouped(m, off, n, 24)
    ensures Grouped(m, off, n + 1, 0)
  {
    var next := n + 1;
    forall s: int, e: int ensures GroupedAt(m, off, next, 0, s, e) {
      assert GroupedAt(m, off, n, 24, s, e);
      assert e <= 0 || e > 24 ==> !IsRun(off, next, s, e);
    }
  }

  method GroupRuns(off: set<Cell>) returns (grouped: Groups)
    ensures Grouped(grouped, off, 7, 0)
  {
    grouped := map[];
    for day := 1 to 8
      invariant Grouped(grouped, off, day - 1, 0)
    {
      var hour := 0;
      while hour < 24
        invariant 0 <= hour <= 24
        invariant hour == 0 || hour == 24 || (day, hour - 1) in off || (day, hour) in off
        invariant Grouped(grouped, off, day - 1, hour)
      {
        if (day, hour) in off {
          SkipHour(grouped, off, day - 1, hour);
          hour := hour + 1;
          continue;
        }
        var start := hour;
        while hour < 24 && (day, hour) !in off
          invariant start <= hour <= 24
          invariant forall h | start <= h < hour :: (day, h) !in off
        {
          hour := hour + 1;
        }
        AddRun(grouped, off, day - 1, start, hour);
        grouped := grouped[(start, hour) := (if (start, hour) in grouped then grouped[(start, hour)] else []) + [day]];
      }
      EndDay(grouped, off, day - 1);
    }
  }

  // The items of the dictionary with keys from (s, e) on, in key order.
  function SortedItems(m: Groups, s: nat, e: nat): seq<PeakWindow>
    requires s <= 24 && e <= 24
    decreases 24 - s, 24 - e
  {
    if s == 24 then [] else ItemAt(m, s, e) + if e < 24 then SortedItems(m, s, e + 1) else SortedItems(m, s + 1, 0)
  }

  function ItemAt(m: Groups, s: nat, e: nat): seq<PeakWindow> {
    if (s, e) in m then [PeakWindow(m[(s, e)], s, e)] else []
  }

  // The window is an item with a key from (s, e) on.
  predicate IsItem(m: Groups, s: nat, e: nat, w: PeakWindow) {
    InScan(s, e, w) && (w.start, w.end) in m && w.weekdays == m[(w.start, w.end)]
  }

  predicate InScan(s: nat, e: nat, w: PeakWindow) {
    w.start < 24 && w.end <= 24 && (w.start > s || (w.start == s && w.end >= e))
  }

  lemma {:induction false} ItemsAreListed(m: Groups, s: nat, e: nat, w: PeakWindow)
    requires s <= 24 && e <= 24
    ensures w in SortedItems(m, s, e) <==> IsItem(m, s, e, w)
    decreases 24 - s, 24 - e
  {
    if s < 24 {
      if e < 24 {
        ItemsAreListed(m, s, e + 1, w);
      } else {
        ItemsAreListed(m, s + 1, 0, w);
      }
      ScanStep(s, e, w);
      assert w in ItemAt(m, s, e) <==> (s, e) in m && w == PeakWindow(m[(s, e)], s, e);
      assert w.start == s && w.end == e ==> (IsItem(m, s, e, w) <==> w in ItemAt(m, s, e));
    }
  }

  lemma ScanStep(s: nat, e: nat, w: PeakWindow)
    requires s < 24 && e <= 24
    ensures InScan(s, e, w) <==>
            (w.start == s && w.end == e) || (if e < 24 then InScan(s, e + 1, w) else InScan(s + 1, 0, w))
  {
  }

  lemma {:induction false} ItemsAreInOrder(m: Groups, s: nat, e: nat)
    requires s <= 24 && e <= 24
    ensures forall i, j | 0 <= i < j < |SortedItems(m, s, e)| :: Before(SortedItems(m, s, e)[i], SortedItems(m, s, e)[j])
    decreases 24 - s, 24 - e
  {
    if s < 24 {
      var rest := if e < 24 then SortedItems(m, s, e + 1) else SortedItems(m, s + 1, 0);
      if e < 24 {
        ItemsAreInOrder(m, s, e + 1);
      } else {
        ItemsAreInOrder(m, s + 1, 0);
      }
      forall j | 0 <= j < |rest| ensures rest[j].start > s || (rest[j].start == s && rest[j].end > e) {
        if e < 24 {
          ItemsAreListed(m, s, e + 1, rest[j]);
        } else {
          ItemsAreListed(m, s + 1, 0, rest[j]);
        }
      }
    }
  }

  lemma GroupListsRuns(m: Groups, off: set<Cell>, w: PeakWindow)
    requires Grouped(m, off, 7, 0) && (w.start, w.end) in m && w.weekdays == m[(w.start, w.end)]
    ensures w.weekdays != [] && Ascending(w.weekdays)
    ensures forall d :: d in w.weekdays <==> 1 <= d <= 7 && IsRun(off, d, w.start, w.end)
  {
    assert GroupedAt(m, off, 7, 0, w.start, w.end);
  }

  lemma SortedGroupsCompile(m: Groups, off: set<Cell>)
    requires Grouped(m, off, 7, 0)
    ensures Compiles(SortedItems(m, 0, 0), off)
  {
    var ws := SortedItems(m, 0, 0);
    ItemsAreInOrder(m, 0, 0);
    forall w | w in ws
      ensures w.weekdays != [] && Ascending(w.weekdays)
              && forall d | d in w.weekdays :: 1 <= d <= 7 && IsRun(off, d, w.start, w.end)
    {
      ItemsAreListed(m, 0, 0, w);
      GroupListsRuns(m, off, w);
    }
    forall d, s: nat, e: nat | 1 <= d <= 7 && IsRun(off, d, s, e)
      ensures exists w | w in ws :: w.start == s && w.end == e && d in w.weekdays
    {
      assert GroupedAt(m, off, 7, 0, s, e);
      assert d in RunDays(off, s, e, 7);
      var w := PeakWindow(m[(s, e)], s, e);
      ItemsAreListed(m, 0, 0, w);
      assert w in ws;
    }
  }

  lemma {:induction false} ParsedSpansFit(hours: seq<Json>)
    requires ParseSpans(hours).Some?
    ensures forall s | s in ParseSpans(hours).value :: s.start < s.end <= 24
  {
    if hours != [] {
      ParsedSpansFit(hours[..|hours| - 1]);
    }
  }

  lemma {:induction false} ParsedWindowsFit(ws: seq<Json>)
    requires ParseWindows(ws).Some?
    ensures SpansInDay(ParseWindows(ws).value)
  {
    if ws != [] {
      ParsedWindowsFit(ws[..|ws| - 1]);
      var last := ws[|ws| - 1];
      ParsedSpansFit(HourList(Get(last.fields, "hours_utc")));
    }
  }

  /** The whole conversion. A row without the declaration passes through; an invalid declaration
      is rejected with its first failure; a valid one is replaced by the windows that compile
      exactly the hours it covers. */
  method NormalizeOffPeakPricing(row: Row) returns (r: Result<Row, Rejection>, ghost windows: seq<PeakWindow>)
    ensures OFF_PEAK !in row ==> r == Ok(row)
    ensures OFF_PEAK in row ==> (r.Err? <==> forall s :: !Declares(row, s))
    ensures OFF_PEAK in row ==> forall s | Declares(row, s) ::
              Compiles(windows, OffCells(s.windows, s.offset)) && r == Ok(Convert(row, s, windows))
    ensures OFF_PEAK in row && Parse(row).Err? ==> r == Err(Parse(row).error)
  {
    windows := [];
    if OFF_PEAK !in row {
      return Ok(row), [];
    }
    var parsed := Parse(row);
    forall s ensures Declares(row, s) <==> parsed == Ok(s) {
      ParseIffDeclares(row, s);
    }
    if parsed.Err? {
      return Err(parsed.error), [];
    }
    var s := parsed.value;
    ParsedWindowsFit(WindowList(row[OFF_PEAK].fields).items);
    var off := MarkOffHours(s.windows, s.offset);
    var grouped := GroupRuns(off);
    SortedGroupsCompile(grouped, off);
    windows := SortedItems(grouped, 0, 0);
    r := Ok(Convert(row, s, SortedItems(grouped, 0, 0)));
  }
}
