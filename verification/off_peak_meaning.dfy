/** What every compiled calendar satisfies. */
module OffPeakMeaning {
  import opened Orders
  import opened OffPeak
  import opened OffPeakCompiler

  // The lookup: the weekday is listed and start <= hour < end.
  predicate Contains(w: PeakWindow, c: Cell) {
    c.0 in w.weekdays && w.start <= c.1 < w.end
  }

  function RunStart(off: set<Cell>, d: int, h: nat): (s: nat)
    requires (d, h) !in off
    ensures s <= h && (s == 0 || (d, s - 1) in off) && forall k | s <= k <= h :: (d, k) !in off
  {
    if h == 0 || (d, h - 1) in off then h else RunStart(off, d, h - 1)
  }

  function RunEnd(off: set<Cell>, d: int, h: nat): (e: nat)
    requires (d, h) !in off && h < 24
    ensures h < e <= 24 && (e == 24 || (d, e) in off) && forall k | h <= k < e :: (d, k) !in off
    decreases 24 - h
  {
    if h == 23 || (d, h + 1) in off then h + 1 else RunEnd(off, d, h + 1)
  }

  /** Meaning is preserved: an hour lies in some emitted window exactly when it is not off-peak. */
  lemma ListedIffPeak(ws: seq<PeakWindow>, off: set<Cell>, c: Cell)
    requires Compiles(ws, off) && IsCell(c)
    ensures (exists w | w in ws :: Contains(w, c)) <==> c !in off
  {
    if c !in off {
      var s, e := RunStart(off, c.0, c.1), RunEnd(off, c.0, c.1);
      assert IsRun(off, c.0, s, e);
      var w :| w in ws && w.start == s && w.end == e && c.0 in w.weekdays;
      assert Contains(w, c);
    }
  }

  /** On each day the emitted windows are disjoint, with an off-peak hour between any two. */
  lemma WindowsAreApart(ws: seq<PeakWindow>, off: set<Cell>, i: nat, j: nat, d: int)
    requires Compiles(ws, off) && i < j < |ws| && d in ws[i].weekdays && d in ws[j].weekdays
    ensures ws[i].end < ws[j].start
  {
    assert ws[i] in ws && ws[j] in ws && Before(ws[i], ws[j]);
    RunsAreApart(off, d, ws[i].start, ws[i].end, ws[j].start, ws[j].end);
  }

  /** No window is emitted exactly when the whole week is off-peak. */
  lemma NoWindowIffAllOffPeak(ws: seq<PeakWindow>, off: set<Cell>)
    requires Compiles(ws, off)
    ensures ws == [] <==> forall c: Cell :: IsCell(c) ==> c in off
  {
    if ws == [] {
      forall c: Cell | IsCell(c) ensures c in off {
        ListedIffPeak(ws, off, c);
      }
    } else {
      var d := ws[0].weekdays[0];
      assert ws[0] in ws && d in ws[0].weekdays;
      var c: Cell := (d, ws[0].start);
      assert IsCell(c) && c !in off;
    }
  }

  /** The emitted windows are canonical: two lists that compile the same hours are equal. */
  lemma CompiledFormIsUnique(ws: seq<PeakWindow>, ws': seq<PeakWindow>, off: set<Cell>)
    requires Compiles(ws, off) && Compiles(ws', off)
    ensures ws == ws'
  {
    var lt := (a: PeakWindow, b: PeakWindow) => Before(a, b);
    forall w ensures w in ws <==> w in ws' {
      if w in ws {
        CompiledWindowIsShared(ws, ws', off, w);
      }
      if w in ws' {
        CompiledWindowIsShared(ws', ws, off, w);
      }
    }
    SortedIsUnique(lt, ws, ws');
  }

  lemma CompiledWindowIsShared(ws: seq<PeakWindow>, ws': seq<PeakWindow>, off: set<Cell>, w: PeakWindow)
    requires Compiles(ws, off) && Compiles(ws', off) && w in ws
    ensures w in ws'
  {
    var d0 := w.weekdays[0];
    assert d0 in w.weekdays;
    var w' :| w' in ws' && w'.start == w.start && w'.end == w.end && d0 in w'.weekdays;
    forall d ensures d in w.weekdays <==> d in w'.weekdays {
      if d in w.weekdays {
        HoursNameOneWindow(ws', off, w', d);
      }
      if d in w'.weekdays {
        HoursNameOneWindow(ws, off, w, d);
      }
    }
    SortedIsUnique((a: int, b: int) => a < b, w.weekdays, w'.weekdays);
  }

  lemma HoursNameOneWindow(ws: seq<PeakWindow>, off: set<Cell>, w: PeakWindow, d: int)
    requires Compiles(ws, off) && w in ws && 1 <= d <= 7 && IsRun(off, d, w.start, w.end)
    ensures d in w.weekdays
  {
    var v :| v in ws && v.start == w.start && v.end == w.end && d in v.weekdays;
    assert !Before(v, w) && !Before(w, v);
  }

  // ---- conservation ----

  function Hours(ws: seq<PeakWindow>): int {
    if ws == [] then 0
    else
      var w := ws[|ws| - 1];
      Hours(ws[..|ws| - 1]) + |w.weekdays| * (w.end - w.start)
  }

  function DayCells(d: int, s: nat, e: nat): set<Cell>
    decreases e
  {
    if s >= e then {} else DayCells(d, s, e - 1) + {(d, e - 1)}
  }

  function Cells(days: seq<int>, s: nat, e: nat): set<Cell> {
    if days == [] then {} else Cells(days[..|days| - 1], s, e) + DayCells(days[|days| - 1], s, e)
  }

  lemma {:induction false} InDayCells(d: int, s: nat, e: nat, c: Cell)
    ensures c in DayCells(d, s, e) <==> c.0 == d && s <= c.1 < e
    decreases e
  {
    if s < e {
      InDayCells(d, s, e - 1, c);
    }
  }

  lemma {:induction false} InCells(days: seq<int>, s: nat, e: nat, c: Cell)
    ensures c in Cells(days, s, e) <==> c.0 in days && s <= c.1 < e
  {
    if days != [] {
      assert days == days[..|days| - 1] + [days[|days| - 1]];
      InCells(days[..|days| - 1], s, e, c);
      InDayCells(days[|days| - 1], s, e, c);
    }
  }

  lemma {:induction false} DayCellsCount(d: int, s: nat, e: nat)
    requires s <= e
    ensures |DayCells(d, s, e)| == e - s
    decreases e
  {
    if s < e {
      DayCellsCount(d, s, e - 1);
      InDayCells(d, s, e - 1, (d, e - 1));
    }
  }

  lemma SumOfDisjoint(a: set<Cell>, b: set<Cell>, c: set<Cell>)
    requires a == b + c && b !! c
    ensures |a| == |b| + |c|
  {
  }

  lemma OneMore(k: int, n: int)
    ensures (k + 1) * n == k * n + n
  {
  }

  lemma {:induction false} CellsCount(days: seq<int>, s: nat, e: nat)
    requires Ascending(days) && s <= e
    ensures |Cells(days, s, e)| == |days| * (e - s)
  {
    if days != [] {
      var init, d := days[..|days| - 1], days[|days| - 1];
      CellsCount(init, s, e);
      DayCellsCount(d, s, e);
      assert d !in init;
      forall c: Cell ensures !(c in Cells(init, s, e) && c in DayCells(d, s, e)) {
        InCells(init, s, e, c);
        InDayCells(d, s, e, c);
      }
      SumOfDisjoint(Cells(days, s, e), Cells(init, s, e), DayCells(d, s, e));
      OneMore(|init|, e - s);
    }
  }

  function WindowCells(w: PeakWindow): set<Cell> {
    Cells(w.weekdays, w.start, w.end)
  }

  // The union of the windows' cells.
  function Listed(ws: seq<PeakWindow>): set<Cell> {
    if ws == [] then {} else Listed(ws[..|ws| - 1]) + WindowCells(ws[|ws| - 1])
  }

  lemma {:induction false} InListed(ws: seq<PeakWindow>, c: Cell)
    ensures c in Listed(ws) <==> exists w | w in ws :: Contains(w, c)
  {
    if ws != [] {
      var init, last := ws[..|ws| - 1], ws[|ws| - 1];
      InListed(init, c);
      assert ws == init + [last] && last in ws && forall w | w in init :: w in ws;
      assert c in Listed(ws) <==> c in Listed(init) || c in WindowCells(last);
      InCells(last.weekdays, last.start, last.end, c);
    }
  }

  ghost predicate Apart(ws: seq<PeakWindow>) {
    && (forall w | w in ws :: Ascending(w.weekdays) && w.start <= w.end)
    && forall i, j, c: Cell | 0 <= i < j < |ws| :: !(Contains(ws[i], c) && Contains(ws[j], c))
  }

  lemma {:induction false} ListedCount(ws: seq<PeakWindow>)
    requires Apart(ws)
    ensures |Listed(ws)| == Hours(ws)
  {
    if ws != [] {
      var init, w := ws[..|ws| - 1], ws[|ws| - 1];
      assert w in ws && forall v | v in init :: v in ws;
      ListedCount(init);
      CellsCount(w.weekdays, w.start, w.end);
      forall c | c in Listed(init) ensures c !in WindowCells(w) {
        InListed(init, c);
        InCells(w.weekdays, w.start, w.end, c);
        var i :| 0 <= i < |init| && Contains(init[i], c);
        assert !(Contains(ws[i], c) && Contains(ws[|ws| - 1], c));
      }
      SumOfDisjoint(Listed(ws), Listed(init), WindowCells(w));
    }
  }

  lemma CompiledWindowsAreApart(ws: seq<PeakWindow>, off: set<Cell>)
    requires Compiles(ws, off)
    ensures Apart(ws)
  {
    forall i, j, c: Cell | 0 <= i < j < |ws| ensures !(Contains(ws[i], c) && Contains(ws[j], c)) {
      if Contains(ws[i], c) && Contains(ws[j], c) {
        WindowsAreApart(ws, off, i, j, c.0);
      }
    }
    forall w | w in ws ensures w.start <= w.end {
      assert w.weekdays[0] in w.weekdays;
    }
  }

  lemma ListedIsThePeak(ws: seq<PeakWindow>, off: set<Cell>, c: Cell)
    requires Compiles(ws, off)
    ensures c in Listed(ws) <==> IsCell(c) && c !in off
  {
    InListed(ws, c);
    forall w | w in ws && Contains(w, c) ensures IsCell(c) {
      assert IsRun(off, c.0, w.start, w.end);
    }
    if IsCell(c) {
      ListedIffPeak(ws, off, c);
    }
  }

  ghost predicate IsWeek(days: seq<int>) {
    |days| == 7 && Ascending(days) && forall d :: d in days <==> 1 <= d <= 7
  }

  lemma WeekIsListedOrOff(days: seq<int>, ws: seq<PeakWindow>, off: set<Cell>)
    requires IsWeek(days) && Compiles(ws, off) && forall c | c in off :: IsCell(c)
    ensures Cells(days, 0, 24) == Listed(ws) + off && Listed(ws) !! off
  {
    forall c: Cell
      ensures c in Cells(days, 0, 24) <==> c in Listed(ws) || c in off
      ensures !(c in Listed(ws) && c in off)
    {
      ListedIsThePeak(ws, off, c);
      InCells(days, 0, 24, c);
    }
  }

  lemma ConservedOver(days: seq<int>, ws: seq<PeakWindow>, off: set<Cell>)
    requires IsWeek(days) && Compiles(ws, off) && forall c | c in off :: IsCell(c)
    ensures Hours(ws) + |off| == 168
  {
    CompiledWindowsAreApart(ws, off);
    ListedCount(ws);
    WeekIsListedOrOff(days, ws, off);
    CellsCount(days, 0, 24);
    SumOfDisjoint(Cells(days, 0, 24), Listed(ws), off);
  }

  /** Conservation: every peak hour is listed once, so the listed hours and the off-peak hours
      add up to the 168 hours of the week. */
  lemma HoursAreConserved(ws: seq<PeakWindow>, windows: seq<Window>, offset: nat)
    requires Compiles(ws, OffCells(windows, offset))
    ensures Hours(ws) + |OffCells(windows, offset)| == 168
  {
    var days := [1, 2, 3, 4, 5, 6, 7];
    assert forall d :: d in days <==> d == 1 || d == 2 || d == 3 || d == 4 || d == 5 || d == 6 || d == 7;
    ConservedOver(days, ws, OffCells(windows, offset));
  }
}
