/** Which declarations the script accepts, and what they say: the parser against a description
    of its input. */
module OffPeakParsing {
  import opened Wrappers
  import opened Json
  import opened OffPeak

  // ---- lists of parsed items ----

  ghost predicate Matches<A, B>(xs: seq<A>, ys: seq<B>, says: (A, B) -> bool) {
    |xs| == |ys| && forall i | 0 <= i < |xs| :: says(xs[i], ys[i])
  }

  // The set holds exactly what is listed.
  ghost predicate Lists<A(!new), B(!new)>(xs: seq<A>, ys: set<B>, says: (A, B) -> bool) {
    && (forall x | x in xs :: exists y | y in ys :: says(x, y))
    && (forall y | y in ys :: exists x | x in xs :: says(x, y))
  }

  ghost predicate Reads<A(!new), B(!new)>(parse: A -> Option<B>, says: (A, B) -> bool) {
    forall x, y :: says(x, y) <==> parse(x) == Some(y)
  }

  function CollectSeq<A, B>(xs: seq<A>, parse: A -> Option<B>): Option<seq<B>> {
    if xs == [] then Some([])
    else match (CollectSeq(xs[..|xs| - 1], parse), parse(xs[|xs| - 1]))
      case (Some(ys), Some(y)) => Some(ys + [y])
      case _ => None
  }

  function CollectSet<A, B(==)>(xs: seq<A>, parse: A -> Option<B>): Option<set<B>> {
    if xs == [] then Some({})
    else match (CollectSet(xs[..|xs| - 1], parse), parse(xs[|xs| - 1]))
      case (Some(ys), Some(y)) => Some(ys + {y})
      case _ => None
  }

  lemma {:induction false} SeqIsCollected<A(!new), B(!new)>(xs: seq<A>, ys: seq<B>, parse: A -> Option<B>, says: (A, B) -> bool)
    requires Reads(parse, says)
    ensures CollectSeq(xs, parse) == Some(ys) <==> Matches(xs, ys, says)
  {
    if xs != [] && ys != [] {
      var init, last := ys[..|ys| - 1], ys[|ys| - 1];
      SeqIsCollected(xs[..|xs| - 1], init, parse, says);
      assert ys == init + [last];
      assert says(xs[|xs| - 1], last) <==> parse(xs[|xs| - 1]) == Some(last);
    }
  }

  lemma {:induction false} SetIsCollected<A(!new), B(!new)>(xs: seq<A>, parse: A -> Option<B>, says: (A, B) -> bool)
    requires Reads(parse, says)
    ensures CollectSet(xs, parse).Some? <==> forall x | x in xs :: parse(x).Some?
    ensures CollectSet(xs, parse).Some? ==> forall y :: y in CollectSet(xs, parse).value <==> exists x | x in xs :: parse(x) == Some(y)
  {
    if xs != [] {
      var init, last := xs[..|xs| - 1], xs[|xs| - 1];
      SetIsCollected(init, parse, says);
      assert forall x :: x in xs <==> x in init || x == last;
    }
  }

  lemma SetIsListed<A(!new), B(!new)>(xs: seq<A>, ys: set<B>, parse: A -> Option<B>, says: (A, B) -> bool)
    requires Reads(parse, says)
    ensures CollectSet(xs, parse) == Some(ys) <==> Lists(xs, ys, says)
  {
    SetIsCollected(xs, parse, says);
    if CollectSet(xs, parse) == Some(ys) {
      forall x | x in xs ensures exists y | y in ys :: says(x, y) {
        var y := parse(x).value;
        assert y in ys && says(x, y);
      }
      forall y | y in ys ensures exists x | x in xs :: says(x, y) {
        var x :| x in xs && parse(x) == Some(y);
        assert says(x, y);
      }
    }
    if Lists(xs, ys, says) {
      forall x | x in xs ensures parse(x).Some? && parse(x).value in ys {
        var y :| y in ys && says(x, y);
      }
      forall y ensures y in ys <==> y in CollectSet(xs, parse).value {
        if y in ys {
          var x :| x in xs && says(x, y);
          assert parse(x) == Some(y);
        }
      }
      assert ys == CollectSet(xs, parse).value;
    }
  }

  // ---- the description ----

  function TwoDigits(h: nat): string
    requires h < 100
  {
    [Digit(h / 10), Digit(h % 10)]
  }

  // A span of hours as it is written; the end of the day is written as hour 00.
  function SpellSpan(s: Span): string
    requires s.start < s.end <= 24
  {
    TwoDigits(s.start) + ":00-" + TwoDigits(s.end % 24) + ":00"
  }

  predicate IsSpan(j: Json, s: Span) {
    s.start < s.end <= 24 && j == Str(SpellSpan(s))
  }

  // A weekday by its ISO number or its English name.
  predicate IsDay(j: Json, d: int) {
    1 <= d <= 7 && (j == Int(d) || j == Str(DAY_NAMES[d - 1]))
  }

  ghost predicate AreSpans(hours: seq<Json>, spans: seq<Span>) {
    Matches(hours, spans, IsSpan)
  }

  // The listed days are these, in whatever order and number.
  ghost predicate AreDays(days: seq<Json>, ds: set<int>) {
    Lists(days, ds, IsDay)
  }

  ghost predicate IsWindow(j: Json, w: Window) {
    && j.Obj? && j.fields.Keys <= {"hours_utc", "weekdays"}
    && Get(j.fields, "weekdays").Some? && Get(j.fields, "weekdays").value.List?
    && w.spans != [] && AreSpans(HourList(Get(j.fields, "hours_utc")), w.spans)
    && w.days != {} && AreDays(Get(j.fields, "weekdays").value.items, w.days)
  }

  ghost predicate AreWindows(ws: seq<Json>, windows: seq<Window>) {
    Matches(ws, windows, (j: Json, w: Window) => IsWindow(j, w))
  }

  /** The row declares this schedule. */
  ghost predicate Declares(row: Row, s: Schedule)
    requires OFF_PEAK in row
  {
    && row[OFF_PEAK].Obj? && TIME_OF_USE !in row && !HasTiers(row)
    && var off := row[OFF_PEAK].fields;
    && off.Keys <= FIELDS + {"hours_utc", "windows", "weekday_timezone"} && !("hours_utc" in off && "windows" in off)
    && ((Timezone(off) == Str("UTC") && s.offset == 0) || (Timezone(off) == Str("Asia/Shanghai") && s.offset == 8))
    && HasRates(row) && HasRates(off) && s.offRates == RatesOf(off) && s.peakRates == RatesOf(row)
    && WindowList(off).List? && s.windows != [] && AreWindows(WindowList(off).items, s.windows)
  }

  // ---- spans ----

  lemma HourIsSpelled(a: char, b: char, h: nat)
    ensures ParseHour(a, b) == Some(h) <==> h < 24 && [a, b] == TwoDigits(h)
  {
    if h < 24 {
      assert TwoDigits(h)[0] == Digit(h / 10) && TwoDigits(h)[1] == Digit(h % 10);
    }
  }

  lemma SpanIsSpelled(j: Json, s: Span)
    ensures ParseSpan(j) == Some(s) <==> IsSpan(j, s)
  {
    if s.start < s.end <= 24 {
      SpelledCharacters(s);
    }
    if j.Str? && |j.s| == 11 {
      var text := j.s;
      HourIsSpelled(text[0], text[1], s.start);
      HourIsSpelled(text[6], text[7], s.end % 24);
      assert text == [text[0], text[1]] + text[2..6] + [text[6], text[7]] + text[8..];
    }
  }

  lemma SpelledCharacters(s: Span)
    requires s.start < s.end <= 24
    ensures var text := SpellSpan(s);
            && |text| == 11 && text[2..6] == ":00-" && text[8..] == ":00"
            && [text[0], text[1]] == TwoDigits(s.start) && [text[6], text[7]] == TwoDigits(s.end % 24)
  {
    var text, mid, end := SpellSpan(s), ":00-", ":00";
    assert |mid| == 4 && |end| == 3;
    assert text[2..6] == mid && text[8..] == end;
  }

  lemma {:induction false} SpansAreCollected(hours: seq<Json>)
    ensures ParseSpans(hours) == CollectSeq(hours, ParseSpan)
  {
    if hours != [] {
      SpansAreCollected(hours[..|hours| - 1]);
    }
  }

  lemma SpansAreSpelled(hours: seq<Json>, spans: seq<Span>)
    ensures ParseSpans(hours) == Some(spans) <==> AreSpans(hours, spans)
  {
    SpansAreCollected(hours);
    forall j, s ensures IsSpan(j, s) <==> ParseSpan(j) == Some(s) {
      SpanIsSpelled(j, s);
    }
    SeqIsCollected(hours, spans, ParseSpan, IsSpan);
  }

  // ---- days ----

  lemma DayNamesDiffer()
    ensures forall i, j | 0 <= i < j < 7 :: DAY_NAMES[i] != DAY_NAMES[j]
  {
    assert |DAY_NAMES| == 7;
    assert |DAY_NAMES[0]| == 6 && |DAY_NAMES[1]| == 7 && |DAY_NAMES[2]| == 9 && |DAY_NAMES[3]| == 8;
    assert |DAY_NAMES[4]| == 6 && |DAY_NAMES[5]| == 8 && |DAY_NAMES[6]| == 6;
    assert DAY_NAMES[0][0] == 'm' && DAY_NAMES[4][0] == 'f' && DAY_NAMES[6][1] == 'u' && DAY_NAMES[6][0] == 's';
    assert DAY_NAMES[3][0] == 't' && DAY_NAMES[5][0] == 's';
  }

  lemma DayIsNamed(j: Json, d: int)
    ensures ParseDay(j) == Some(d) <==> IsDay(j, d)
  {
    DayNamesDiffer();
    if j.Str? && 1 <= d <= 7 {
      IndexOfDistinct(DAY_NAMES, j.s, d - 1);
    }
  }

  lemma IndexOfDistinct(names: seq<string>, name: string, i: nat)
    requires i < |names| && forall k, l | 0 <= k < l < |names| :: names[k] != names[l]
    ensures name in names && IndexOf(names, name) == i <==> names[i] == name
  {
  }

  lemma {:induction false} DaysAreCollected(days: seq<Json>)
    ensures ParseDays(days) == CollectSet(days, ParseDay)
  {
    if days != [] {
      DaysAreCollected(days[..|days| - 1]);
    }
  }

  lemma DaysAreNamed(days: seq<Json>, ds: set<int>)
    ensures ParseDays(days) == Some(ds) <==> AreDays(days, ds)
  {
    DaysAreCollected(days);
    forall j, d ensures IsDay(j, d) <==> ParseDay(j) == Some(d) {
      DayIsNamed(j, d);
    }
    SetIsListed(days, ds, ParseDay, IsDay);
  }

  // ---- windows ----

  lemma WindowIsDescribed(j: Json, w: Window)
    ensures ParseWindow(j) == Some(w) <==> IsWindow(j, w)
  {
    if j.Obj? && Get(j.fields, "weekdays").Some? && Get(j.fields, "weekdays").value.List? {
      var days, hours := Get(j.fields, "weekdays").value.items, HourList(Get(j.fields, "hours_utc"));
      DaysAreNamed(days, w.days);
      SpansAreSpelled(hours, w.spans);
      NoDaysNoNames(days, w.days, IsDay);
    }
  }

  lemma NoDaysNoNames<A(!new), B(!new)>(xs: seq<A>, ys: set<B>, says: (A, B) -> bool)
    ensures Lists(xs, ys, says) ==> (xs == [] <==> ys == {})
  {
    assert xs != [] ==> xs[0] in xs;
  }

  lemma {:induction false} WindowsAreCollected(ws: seq<Json>)
    ensures ParseWindows(ws) == CollectSeq(ws, ParseWindow)
  {
    if ws != [] {
      WindowsAreCollected(ws[..|ws| - 1]);
    }
  }

  lemma WindowsAreDescribed(ws: seq<Json>, windows: seq<Window>)
    ensures ParseWindows(ws) == Some(windows) <==> AreWindows(ws, windows)
  {
    var says := (j: Json, w: Window) => IsWindow(j, w);
    WindowsAreCollected(ws);
    forall j, w ensures says(j, w) <==> ParseWindow(j) == Some(w) {
      WindowIsDescribed(j, w);
    }
    SeqIsCollected(ws, windows, ParseWindow, says);
  }

  // The same demands as of a declaration, with the parser's own reading of the windows.
  predicate Passes(row: Row, s: Schedule)
    requires OFF_PEAK in row
  {
    && row[OFF_PEAK].Obj? && TIME_OF_USE !in row && !HasTiers(row)
    && var off := row[OFF_PEAK].fields;
    && off.Keys <= FIELDS + {"hours_utc", "windows", "weekday_timezone"} && !("hours_utc" in off && "windows" in off)
    && Offset(Timezone(off)) == Some(s.offset)
    && HasRates(row) && HasRates(off) && s.offRates == RatesOf(off) && s.peakRates == RatesOf(row)
    && WindowList(off).List? && s.windows != [] && ParseWindows(WindowList(off).items) == Some(s.windows)
  }

  lemma ParsedWindowsMatch(ws: seq<Json>)
    ensures ParseWindows(ws).Some? ==> |ParseWindows(ws).value| == |ws|
  {
    if ws != [] {
      ParsedWindowsMatch(ws[..|ws| - 1]);
    }
  }

  lemma ParseIffPasses(row: Row, s: Schedule)
    requires OFF_PEAK in row
    ensures Parse(row) == Ok(s) <==> Passes(row, s)
  {
    if row[OFF_PEAK].Obj? && WindowList(row[OFF_PEAK].fields).List? {
      ParsedWindowsMatch(WindowList(row[OFF_PEAK].fields).items);
    }
  }

  lemma OffsetIsNamed(timezone: Json, offset: nat)
    ensures Offset(timezone) == Some(offset) <==>
            (timezone == Str("UTC") && offset == 0) || (timezone == Str("Asia/Shanghai") && offset == 8)
  {
    assert |"UTC"| == 3 && |"Asia/Shanghai"| == 13;
  }

  /** The parser accepts exactly the rows that declare a schedule, and returns that schedule. */
  lemma ParseIffDeclares(row: Row, s: Schedule)
    requires OFF_PEAK in row
    ensures Parse(row) == Ok(s) <==> Declares(row, s)
  {
    ParseIffPasses(row, s);
    if row[OFF_PEAK].Obj? && WindowList(row[OFF_PEAK].fields).List? {
      WindowsAreDescribed(WindowList(row[OFF_PEAK].fields).items, s.windows);
      OffsetIsNamed(Timezone(row[OFF_PEAK].fields), s.offset);
    }
  }
}
