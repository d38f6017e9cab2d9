/** Time-of-day price windows (pricing/window.go). An instant is a count of
    nanoseconds since the Unix epoch; all calendar arithmetic is in UTC. */
module Windows {
  import opened Common
  import opened Money
  import opened Usage

  const MINUTE: int := 60_000_000_000
  const MINUTES_PER_DAY: int := 1440
  const MINUTES_PER_WEEK: int := 10080
  /** The scan of NextBoundaryAfter covers eight days of minutes. */
  const SCAN_MINUTES: int := 11520
  /** Go's zero time.Time, 1 January of year 1: "no instant pinned". */
  const ZERO_TIME: int := -62_135_596_800_000_000_000

  datatype Window = Window(
    id: string, caption: string,
    startMinute: int, endMinute: int, weekdayMask: int,
    num: Int64, den: Int64, appliesTo: seq<TokenClass>,
    priority: int, effectiveFrom: Option<int>, effectiveUntil: Option<int>)

  predicate ValidWindow(w: Window) {
    && w.id != ""
    && 0 <= w.startMinute < MINUTES_PER_DAY
    && 0 <= w.endMinute <= MINUTES_PER_DAY
    && w.startMinute != w.endMinute
    && 1 <= w.weekdayMask <= 127
    && w.den > 0
    && w.num >= 0
    && (forall class_ | class_ in w.appliesTo :: class_ in TOKEN_CLASSES)
    && (w.effectiveFrom.Some? && w.effectiveUntil.Some? ==> w.effectiveUntil.value > w.effectiveFrom.value)
  }

  /** Minutes since the epoch, the only part of an instant the weekly pattern sees. */
  function MinuteNumber(at: int): int {
    at / MINUTE
  }

  function MinuteOfDay(minute: int): int {
    minute % MINUTES_PER_DAY
  }

  /** ISO weekday with Monday as 0; the epoch was a Thursday. */
  function IsoWeekday(minute: int): (d: int)
    ensures 0 <= d < 7
  {
    (minute / MINUTES_PER_DAY + 3) % 7
  }

  predicate HasDay(mask: int, day: int)
    requires 0 <= day < 7
  {
    var bit := match day case 0 => 1 case 1 => 2 case 2 => 4 case 3 => 8 case 4 => 16 case 5 => 32 case _ => 64;
    mask / bit % 2 == 1
  }

  predicate CoversMinute(w: Window, minute: int) {
    if w.startMinute < w.endMinute then w.startMinute <= minute < w.endMinute
    else minute >= w.startMinute || minute < w.endMinute
  }

  predicate WeeklyMatch(w: Window, minute: int) {
    HasDay(w.weekdayMask, IsoWeekday(minute)) && CoversMinute(w, MinuteOfDay(minute))
  }

  predicate Matches(w: Window, at: int) {
    && at != ZERO_TIME
    && !(w.effectiveFrom.Some? && at < w.effectiveFrom.value)
    && !(w.effectiveUntil.Some? && at >= w.effectiveUntil.value)
    && WeeklyMatch(w, MinuteNumber(at))
  }

  function DayBit(mask: int, day: int): int
    requires 0 <= day < 7
  {
    if HasDay(mask, day) then 1 else 0
  }

  /** A mask is the sum of its days' bits: Monday 1, Tuesday 2, up to Sunday 64. */
  lemma MaskIsSumOfDays(mask: int)
    requires 0 <= mask <= 127
    ensures mask == DayBit(mask, 0) + 2 * DayBit(mask, 1) + 4 * DayBit(mask, 2) + 8 * DayBit(mask, 3)
                    + 16 * DayBit(mask, 4) + 32 * DayBit(mask, 5) + 64 * DayBit(mask, 6)
  {
    hide DayBit, HasDay;
    DayBitsAreDigits(mask);
    assert mask / 4 == mask / 2 / 2;
    assert mask / 8 == mask / 4 / 2;
    assert mask / 16 == mask / 8 / 2;
    assert mask / 32 == mask / 16 / 2;
    assert mask / 64 == mask / 32 / 2;
  }

  lemma DayBitsAreDigits(mask: int)
    requires 0 <= mask <= 127
    ensures DayBit(mask, 0) == mask % 2 && DayBit(mask, 1) == mask / 2 % 2 && DayBit(mask, 2) == mask / 4 % 2
    ensures DayBit(mask, 3) == mask / 8 % 2 && DayBit(mask, 4) == mask / 16 % 2 && DayBit(mask, 5) == mask / 32 % 2
    ensures DayBit(mask, 6) == mask / 64
  {
  }

  /** How many minutes of a day a window spans, walking forward from its start. */
  function SpanMinutes(w: Window): int {
    var length := (w.endMinute - w.startMinute) % MINUTES_PER_DAY;
    if length == 0 then MINUTES_PER_DAY else length
  }

  /** A window is an arc of the day's circle: it covers a minute exactly when walking forward
      from its start reaches that minute before its span is used up, across midnight or not. */
  lemma CoverageIsAnArc(w: Window, minute: int)
    requires ValidWindow(w) && 0 <= minute < MINUTES_PER_DAY
    ensures CoversMinute(w, minute) <==> (minute - w.startMinute) % MINUTES_PER_DAY < SpanMinutes(w)
  {
  }

  /** Monday 27 July 2026 falls on its own day, and midnight moves the weekday on by one. */
  lemma WeekdaysAreAnchored(minute: int)
    ensures IsoWeekday(20661 * MINUTES_PER_DAY) == 0
    ensures IsoWeekday(minute + MINUTES_PER_DAY) == (IsoWeekday(minute) + 1) % 7
    ensures IsoWeekday(minute) == IsoWeekday(minute - MinuteOfDay(minute))
  {
    var day := minute / MINUTES_PER_DAY;
    DayOf(minute);
    assert (day + 1 + 3) % 7 == ((day + 3) % 7 + 1) % 7;
  }

  lemma DayOf(minute: int)
    ensures (minute + MINUTES_PER_DAY) / MINUTES_PER_DAY == minute / MINUTES_PER_DAY + 1
    ensures (minute - minute % MINUTES_PER_DAY) / MINUTES_PER_DAY == minute / MINUTES_PER_DAY
    ensures 20661 * MINUTES_PER_DAY / MINUTES_PER_DAY == 20661
  {
  }

  /** The multiplier a window puts on one class, as the early-return scan finds it. */
  function ScaleFor(w: Window, class_: TokenClass): (scale: (Int64, Int64))
    ensures scale == (w.num, w.den) || scale == (1, 1)
  {
    if w.appliesTo == [] || class_ in w.appliesTo then (w.num, w.den) else (1, 1)
  }

  predicate Beats(a: Window, b: Window) {
    a.priority > b.priority || (a.priority == b.priority && Less(a.id, b.id))
  }

  function WindowFor(ws: seq<Window>, at: int): Option<Window> {
    if ws == [] then None
    else
      var selected := WindowFor(ws[..|ws| - 1], at);
      var candidate := ws[|ws| - 1];
      if !Matches(candidate, at) then selected
      else if selected.None? || Beats(candidate, selected.value) then Some(candidate)
      else selected
  }

  /** The scan over all windows that keeps the best match so far. */
  method SelectWindow(ws: seq<Window>, at: int) returns (selected: Option<Window>)
    ensures selected == WindowFor(ws, at)
  {
    selected := None;
    for i := 0 to |ws|
      invariant selected == WindowFor(ws[..i], at)
    {
      assert ws[..i + 1][..i] == ws[..i];
      var candidate := ws[i];
      if Matches(candidate, at) {
        if selected.None? || Beats(candidate, selected.value) {
          selected := Some(candidate);
        }
      }
    }
    assert ws[..|ws|] == ws;
  }

  lemma BeatsIsTransitive(a: Window, b: Window, c: Window)
    requires Beats(a, b) && Beats(b, c)
    ensures Beats(a, c)
  {
    if a.priority == b.priority == c.priority {
      LessIsTransitive(a.id, b.id, c.id);
    }
  }

  lemma BeatsIsTotal(a: Window, b: Window)
    ensures Beats(a, b) || Beats(b, a) || (a.priority == b.priority && a.id == b.id)
    ensures !(Beats(a, b) && Beats(b, a))
  {
    LessIsTotal(a.id, b.id);
  }

  /** Windows never stack: the selected one matches, and no other match beats it. */
  lemma {:induction false} WindowForIsBest(ws: seq<Window>, at: int)
    ensures var r := WindowFor(ws, at);
            && (r.None? <==> forall w | w in ws :: !Matches(w, at))
            && (r.Some? ==> && r.value in ws && Matches(r.value, at)
                            && forall w | w in ws && Matches(w, at) :: !Beats(w, r.value))
  {
    if ws != [] {
      var init, last := ws[..|ws| - 1], ws[|ws| - 1];
      assert ws == init + [last];
      WindowForIsBest(init, at);
      var before, r := WindowFor(init, at), WindowFor(ws, at);
      LessIsTotal(last.id, last.id);
      if r.Some? && Matches(last, at) && before.Some? {
        BeatsIsTotal(last, before.value);
        forall w | w in init && Matches(w, at) ensures !Beats(w, r.value) {
          if Beats(w, last) && Beats(last, before.value) {
            BeatsIsTransitive(w, last, before.value);
          }
        }
      }
    }
  }

  predicate UniqueIds(ws: seq<Window>) {
    forall i, j | 0 <= i < j < |ws| :: ws[i].id != ws[j].id
  }

  lemma SameIdSameWindow(ws: seq<Window>, a: Window, b: Window)
    requires UniqueIds(ws) && a in ws && b in ws && a.id == b.id
    ensures a == b
  {
    var i :| 0 <= i < |ws| && ws[i] == a;
    var j :| 0 <= j < |ws| && ws[j] == b;
  }

  /** Selection does not depend on the order the windows are stored in. */
  lemma WindowForIgnoresOrder(ws: seq<Window>, ws': seq<Window>, at: int)
    requires multiset(ws) == multiset(ws') && UniqueIds(ws)
    ensures WindowFor(ws, at) == WindowFor(ws', at)
  {
    WindowForIsBest(ws, at);
    WindowForIsBest(ws', at);
    forall w ensures w in ws <==> w in ws' {
      assert w in ws <==> w in multiset(ws);
      assert w in ws' <==> w in multiset(ws');
    }
    var r, r' := WindowFor(ws, at), WindowFor(ws', at);
    if r.Some? && r'.Some? {
      BeatsIsTotal(r.value, r'.value);
      SameIdSameWindow(ws, r.value, r'.value);
    }
  }

  predicate SortedWindows(ws: seq<Window>) {
    forall i, j | 0 <= i < j < |ws| :: !Beats(ws[j], ws[i])
  }

  /** In sorted order the governing window is simply the first that matches. */
  lemma WindowForIsFirstMatch(ws: seq<Window>, at: int, i: nat)
    requires SortedWindows(ws) && UniqueIds(ws)
    requires i < |ws| && Matches(ws[i], at) && forall j | 0 <= j < i :: !Matches(ws[j], at)
    ensures WindowFor(ws, at) == Some(ws[i])
  {
    WindowForIsBest(ws, at);
    var r := WindowFor(ws, at).value;
    var k :| 0 <= k < |ws| && ws[k] == r;
    if k > i {
      BeatsIsTotal(ws[k], ws[i]);
    }
  }

  // ---- The next price change ----

  function WindowId(w: Option<Window>): string {
    if w.None? then "" else w.value.id
  }

  function SelectedId(ws: seq<Window>, at: int): string {
    WindowId(WindowFor(ws, at))
  }

  /** The k-th minute boundary the scan visits, counted from the minute of `at`. */
  function ScanPoint(at: int, k: int): int {
    (MinuteNumber(at) + k) * MINUTE
  }

  function ScanId(ws: seq<Window>, at: int, k: int): string {
    SelectedId(ws, ScanPoint(at, k))
  }

  /** What the scan answers: the first of eight days of boundaries with another window. */
  ghost predicate IsScanResult(ws: seq<Window>, at: int, r: int) {
    if ws == [] || at == ZERO_TIME then r == ZERO_TIME
    else
      || (exists k | 1 <= k <= SCAN_MINUTES ::
            && r == ScanPoint(at, k) && ScanId(ws, at, k) != SelectedId(ws, at)
            && forall j | 1 <= j < k :: ScanId(ws, at, j) == SelectedId(ws, at))
      || (r == ZERO_TIME && forall j | 1 <= j <= SCAN_MINUTES :: ScanId(ws, at, j) == SelectedId(ws, at))
  }

  method NextBoundaryAfter(ws: seq<Window>, at: int) returns (r: int)
    ensures IsScanResult(ws, at, r)
  {
    if |ws| == 0 || at == ZERO_TIME {
      return ZERO_TIME;
    }
    var selected := SelectWindow(ws, at);
    var current := WindowId(selected);
    var cursor := at / MINUTE * MINUTE;
    var limit := cursor + SCAN_MINUTES * MINUTE;
    ghost var k := 0;
    while cursor < limit
      invariant 0 <= k <= SCAN_MINUTES && cursor == ScanPoint(at, k)
      invariant limit == ScanPoint(at, SCAN_MINUTES)
      invariant forall j | 1 <= j <= k :: ScanId(ws, at, j) == current
      decreases limit - cursor
    {
      cursor := cursor + MINUTE;
      k := k + 1;
      selected := SelectWindow(ws, cursor);
      if WindowId(selected) != current {
        assert ScanId(ws, at, k) != current;
        return cursor;
      }
    }
    return ZERO_TIME;
  }

  /** No effective date lies after `at`, so the weekly pattern alone decides from there on. */
  predicate DatesPassed(ws: seq<Window>, at: int) {
    forall w | w in ws ::
      && (w.effectiveFrom.Some? ==> w.effectiveFrom.value <= at)
      && (w.effectiveUntil.Some? ==> w.effectiveUntil.value <= at)
  }

  /** The effective dates strictly between two instants fall on whole minutes. */
  predicate DatesOnMinutes(ws: seq<Window>, from: int, until: int) {
    forall w | w in ws :: OnMinute(w.effectiveFrom, from, until) && OnMinute(w.effectiveUntil, from, until)
  }

  predicate OnMinute(date: Option<int>, from: int, until: int) {
    date.Some? && from < date.value < until ==> date.value % MINUTE == 0
  }

  /** At no effective date strictly between two instants does another window govern. */
  predicate QuietDates(ws: seq<Window>, at: int, until: int) {
    forall w | w in ws :: Quiet(ws, w.effectiveFrom, at, until) && Quiet(ws, w.effectiveUntil, at, until)
  }

  predicate Quiet(ws: seq<Window>, date: Option<int>, at: int, until: int) {
    date.Some? && at < date.value < until ==> WindowFor(ws, date.value) == WindowFor(ws, at)
  }

  /** One window governs, or none, on every instant from one to before another. */
  ghost predicate Steady(ws: seq<Window>, at: int, until: int) {
    forall t | at <= t < until :: WindowFor(ws, t) == WindowFor(ws, at)
  }

  ghost predicate NeverChanges(ws: seq<Window>, at: int) {
    forall t | at <= t :: WindowFor(ws, t) == WindowFor(ws, at)
  }

  predicate SelectableIds(ws: seq<Window>) {
    UniqueIds(ws) && forall w | w in ws :: w.id != ""
  }

  lemma WeekIsPeriodic(w: Window, minute: int, minute': int)
    requires minute % MINUTES_PER_WEEK == minute' % MINUTES_PER_WEEK
    ensures WeeklyMatch(w, minute) == WeeklyMatch(w, minute')
  {
    WeekSlot(minute);
    WeekSlot(minute');
  }

  lemma WeekSlot(minute: int)
    ensures MinuteOfDay(minute) == MinuteOfDay(minute % MINUTES_PER_WEEK)
    ensures IsoWeekday(minute) == IsoWeekday(minute % MINUTES_PER_WEEK)
  {
    var week, slot := minute / MINUTES_PER_WEEK, minute % MINUTES_PER_WEEK;
    assert minute == week * 7 * 1440 + slot;
    assert minute / 1440 == week * 7 + slot / 1440;
  }

  /** Two instants at which every window gives the same answer select the same window. */
  lemma {:induction false} SameMatchesSameWindow(ws: seq<Window>, t: int, t': int)
    requires forall w | w in ws :: Matches(w, t) == Matches(w, t')
    ensures WindowFor(ws, t) == WindowFor(ws, t')
  {
    if ws != [] {
      assert ws == ws[..|ws| - 1] + [ws[|ws| - 1]];
      SameMatchesSameWindow(ws[..|ws| - 1], t, t');
    }
  }

  /** The latest effective date after p and up to t, or p itself. */
  function LastDate(ws: seq<Window>, p: int, t: int): (d: int)
    requires p <= t
    ensures p <= d <= t
  {
    if ws == [] then p
    else
      var before, w := LastDate(ws[..|ws| - 1], p, t), ws[|ws| - 1];
      LaterDate(LaterDate(before, w.effectiveFrom, t), w.effectiveUntil, t)
  }

  function LaterDate(best: int, date: Option<int>, t: int): int {
    if date.Some? && best < date.value <= t then date.value else best
  }

  predicate NotBetween(date: Option<int>, d: int, t: int) {
    date.Some? ==> date.value <= d || t < date.value
  }

  lemma {:induction false} LastDateIsLatest(ws: seq<Window>, p: int, t: int)
    requires p <= t
    ensures var d := LastDate(ws, p, t);
            && (forall w | w in ws :: NotBetween(w.effectiveFrom, d, t) && NotBetween(w.effectiveUntil, d, t))
            && (d == p || exists w :: w in ws && (w.effectiveFrom == Some(d) || w.effectiveUntil == Some(d)))
  {
    if ws != [] {
      assert ws == ws[..|ws| - 1] + [ws[|ws| - 1]];
      LastDateIsLatest(ws[..|ws| - 1], p, t);
    }
  }

  /** Within a minute only an effective date changes the selection. */
  lemma SameSinceLastDate(ws: seq<Window>, d: int, t: int)
    requires ZERO_TIME < d <= t && MinuteNumber(d) == MinuteNumber(t)
    requires forall w | w in ws :: NotBetween(w.effectiveFrom, d, t) && NotBetween(w.effectiveUntil, d, t)
    ensures WindowFor(ws, t) == WindowFor(ws, d)
  {
    SameMatchesSameWindow(ws, t, d);
  }

  lemma SameSlotSameWindow(ws: seq<Window>, at: int, t: int, t': int)
    requires DatesPassed(ws, at) && ZERO_TIME < at <= t && at <= t'
    requires MinuteNumber(t) % MINUTES_PER_WEEK == MinuteNumber(t') % MINUTES_PER_WEEK
    ensures WindowFor(ws, t) == WindowFor(ws, t')
  {
    forall w | w in ws ensures Matches(w, t) == Matches(w, t') {
      WeekIsPeriodic(w, MinuteNumber(t), MinuteNumber(t'));
    }
    SameMatchesSameWindow(ws, t, t');
  }

  lemma SameIdMeansSameSelection(ws: seq<Window>, t: int, t': int)
    requires SelectableIds(ws)
    ensures SelectedId(ws, t) == SelectedId(ws, t') <==> WindowFor(ws, t) == WindowFor(ws, t')
  {
    WindowForIsBest(ws, t);
    WindowForIsBest(ws, t');
    var r, r' := WindowFor(ws, t), WindowFor(ws, t');
    if r.Some? && r'.Some? && r.value.id == r'.value.id {
      SameIdSameWindow(ws, r.value, r'.value);
    }
  }

  /** A reported boundary is the first minute at which another window governs. The price is
      constant on every instant before it exactly when no effective date in between changes it,
      so in any case when those dates fall on whole minutes. */
  lemma NextBoundaryIsSound(ws: seq<Window>, at: int, r: int)
    requires SelectableIds(ws) && ZERO_TIME < at
    requires IsScanResult(ws, at, r) && r != ZERO_TIME
    ensures at < r && r % MINUTE == 0
    ensures WindowFor(ws, r) != WindowFor(ws, at)
    ensures Steady(ws, at, r) <==> QuietDates(ws, at, r)
    ensures DatesOnMinutes(ws, at, r) ==> Steady(ws, at, r)
  {
    hide *;
    var k := FirstChange(ws, at, r);
    SteadyExactly(ws, at, r, k - 1);
    MinuteDatesAreQuiet(ws, at, r, k - 1);
  }

  lemma FirstChange(ws: seq<Window>, at: int, r: int) returns (k: int)
    requires IsScanResult(ws, at, r) && r != ZERO_TIME
    ensures 1 <= k && r == ScanPoint(at, k) && at < r && r % MINUTE == 0
    ensures forall j | 1 <= j <= k - 1 :: ScanId(ws, at, j) == SelectedId(ws, at)
    ensures WindowFor(ws, r) != WindowFor(ws, at)
  {
    hide WindowFor;
    k :| 1 <= k <= SCAN_MINUTES && r == ScanPoint(at, k) && ScanId(ws, at, k) != SelectedId(ws, at)
         && forall j | 1 <= j < k :: ScanId(ws, at, j) == SelectedId(ws, at);
    BeforeScanPoint(at, at, k);
  }

  lemma BeforeScanPoint(at: int, t: int, k: int)
    ensures t < ScanPoint(at, k) ==> MinuteNumber(t) <= MinuteNumber(at) + (k - 1)
    ensures ScanPoint(at, k) % MINUTE == 0 && (1 <= k ==> at < ScanPoint(at, k))
  {
  }

  /** If n scan points show no change, there is none up to the end of the n-th scanned minute
      exactly when no effective date up to there brings one. */
  lemma SteadyExactly(ws: seq<Window>, at: int, until: int, n: int)
    requires SelectableIds(ws) && ZERO_TIME < at && 0 <= n && until <= ScanPoint(at, n + 1)
    requires forall j | 1 <= j <= n :: ScanId(ws, at, j) == SelectedId(ws, at)
    ensures Steady(ws, at, until) <==> QuietDates(ws, at, until)
  {
    hide WindowFor, SelectableIds, ScanId, SelectedId, ScanPoint;
    if QuietDates(ws, at, until) {
      forall t | at <= t < until ensures WindowFor(ws, t) == WindowFor(ws, at) {
        BeforeScanPoint(at, t, n + 1);
        QuietInstant(ws, at, until, t, n);
      }
    }
  }

  lemma QuietInstant(ws: seq<Window>, at: int, until: int, t: int, n: int)
    requires SelectableIds(ws) && ZERO_TIME < at <= t < until && QuietDates(ws, at, until)
    requires MinuteNumber(t) <= MinuteNumber(at) + n
    requires forall j | 1 <= j <= n :: ScanId(ws, at, j) == SelectedId(ws, at)
    ensures WindowFor(ws, t) == WindowFor(ws, at)
  {
    hide WindowFor, SelectableIds;
    var j := MinuteNumber(t) - MinuteNumber(at);
    var p := if j == 0 then at else ScanPoint(at, j);
    if j > 0 {
      assert ScanId(ws, at, j) == SelectedId(ws, at);
      SameIdMeansSameSelection(ws, p, at);
    }
    var d := LastDate(ws, p, t);
    LastDateIsLatest(ws, p, t);
    SameSinceLastDate(ws, d, t);
    if d != p {
      var w :| w in ws && (w.effectiveFrom == Some(d) || w.effectiveUntil == Some(d));
      assert Quiet(ws, w.effectiveFrom, at, until) && Quiet(ws, w.effectiveUntil, at, until);
    }
  }

  /** A date on a whole minute is itself a scan point. */
  lemma MinuteDatesAreQuiet(ws: seq<Window>, at: int, until: int, n: int)
    requires SelectableIds(ws) && until <= ScanPoint(at, n + 1)
    requires forall j | 1 <= j <= n :: ScanId(ws, at, j) == SelectedId(ws, at)
    ensures DatesOnMinutes(ws, at, until) ==> QuietDates(ws, at, until)
  {
    hide WindowFor, SelectableIds;
    if DatesOnMinutes(ws, at, until) {
      forall w | w in ws ensures Quiet(ws, w.effectiveFrom, at, until) && Quiet(ws, w.effectiveUntil, at, until) {
        MinuteDateIsQuiet(ws, w.effectiveFrom, at, until, n);
        MinuteDateIsQuiet(ws, w.effectiveUntil, at, until, n);
      }
    }
  }

  lemma MinuteDateIsQuiet(ws: seq<Window>, date: Option<int>, at: int, until: int, n: int)
    requires SelectableIds(ws) && until <= ScanPoint(at, n + 1) && OnMinute(date, at, until)
    requires forall j | 1 <= j <= n :: ScanId(ws, at, j) == SelectedId(ws, at)
    ensures Quiet(ws, date, at, until)
  {
    hide WindowFor, SelectableIds;
    if date.Some? && at < date.value < until {
      var j := MinuteNumber(date.value) - MinuteNumber(at);
      assert date.value == ScanPoint(at, j);
      assert ScanId(ws, at, j) == SelectedId(ws, at);
      SameIdMeansSameSelection(ws, date.value, at);
    }
  }

  lemma AllWeekMatches(w: Window, minute: int)
    requires w.startMinute == 0 && w.endMinute == MINUTES_PER_DAY && w.weekdayMask == 127
    ensures WeeklyMatch(w, minute)
  {
    assert forall d | 0 <= d < 7 :: HasDay(127, d);
  }

  /** A date inside a minute is seen only at the next boundary: the price changes half a
      minute before the instant that is reported. */
  lemma OffMinuteDateIsSeenLate(at: int)
    requires ZERO_TIME < at && at % MINUTE == 0
    ensures var ws := [Window("promo", "", 0, 1440, 127, 1, 2, [], 0, Some(at + MINUTE / 2), None)];
            && ValidWindow(ws[0]) && IsScanResult(ws, at, at + MINUTE)
            && WindowFor(ws, at + MINUTE / 2) != WindowFor(ws, at)
  {
    var ws := [Window("promo", "", 0, 1440, 127, 1, 2, [], 0, Some(at + MINUTE / 2), None)];
    assert ScanPoint(at, 1) == at + MINUTE;
    AllWeekMatches(ws[0], MinuteNumber(at));
    AllWeekMatches(ws[0], MinuteNumber(at + MINUTE));
    hide WeeklyMatch;
    assert MinuteNumber(at + MINUTE / 2) == MinuteNumber(at);
    assert !Matches(ws[0], at) && Matches(ws[0], at + MINUTE / 2) && Matches(ws[0], at + MINUTE);
    hide Matches;
    WindowForIsBest(ws, at);
    WindowForIsBest(ws, at + MINUTE / 2);
    WindowForIsBest(ws, at + MINUTE);
    assert ScanId(ws, at, 1) != SelectedId(ws, at);
  }

  /** A window that opens and closes inside one minute is never reported at all. */
  lemma ShortWindowIsNeverSeen(at: int)
    requires ZERO_TIME < at && at % MINUTE == 0
    ensures var ws := [Window("promo", "", 0, 1440, 127, 1, 2, [], 0, Some(at + MINUTE / 6), Some(at + MINUTE / 2))];
            && ValidWindow(ws[0]) && IsScanResult(ws, at, ZERO_TIME)
            && WindowFor(ws, at + MINUTE / 6) != WindowFor(ws, at)
  {
    var ws := [Window("promo", "", 0, 1440, 127, 1, 2, [], 0, Some(at + MINUTE / 6), Some(at + MINUTE / 2))];
    AllWeekMatches(ws[0], MinuteNumber(at));
    hide WeeklyMatch;
    assert MinuteNumber(at + MINUTE / 6) == MinuteNumber(at);
    assert !Matches(ws[0], at) && Matches(ws[0], at + MINUTE / 6);
    WindowForIsBest(ws, at);
    WindowForIsBest(ws, at + MINUTE / 6);
    forall j | 1 <= j <= SCAN_MINUTES ensures ScanId(ws, at, j) == SelectedId(ws, at) {
      assert ScanPoint(at, j) >= at + MINUTE;
      assert !Matches(ws[0], ScanPoint(at, j));
      WindowForIsBest(ws, ScanPoint(at, j));
    }
  }

  /** The last scan point from which the scan still covers a whole week. */
  const LAST_DATE: int := SCAN_MINUTES - MINUTES_PER_WEEK + 1

  /** An answer of "no change", when every date lies at or before the 1441st scanned minute, is
      final exactly when no date up to there changes the selection: the rest of the eight days
      covers every minute of the week. */
  lemma NoBoundaryMeansNeverAgain(ws: seq<Window>, at: int)
    requires SelectableIds(ws) && ZERO_TIME < at
    requires DatesPassed(ws, ScanPoint(at, LAST_DATE))
    requires IsScanResult(ws, at, ZERO_TIME)
    ensures NeverChanges(ws, at) <==> QuietDates(ws, at, ScanPoint(at, LAST_DATE))
    ensures DatesOnMinutes(ws, at, ScanPoint(at, LAST_DATE)) ==> NeverChanges(ws, at)
  {
    var horizon := ScanPoint(at, LAST_DATE);
    NothingScanned(ws, at);
    hide WindowFor, IsScanResult, ScanId, SelectedId, DatesPassed, SelectableIds, ScanPoint;
    BeforeScanPoint(at, at, LAST_DATE);
    LaterScanPoint(at, LAST_DATE, SCAN_MINUTES + 1);
    SteadyExactly(ws, at, horizon, SCAN_MINUTES);
    MinuteDatesAreQuiet(ws, at, horizon, SCAN_MINUTES);
    if QuietDates(ws, at, horizon) {
      forall t | at <= t ensures WindowFor(ws, t) == WindowFor(ws, at) {
        if t >= horizon {
          AfterHorizon(ws, at, t);
        }
      }
    }
  }

  /** A zero answer means that no scan point showed a change. */
  lemma NothingScanned(ws: seq<Window>, at: int)
    requires IsScanResult(ws, at, ZERO_TIME) && ZERO_TIME < at
    ensures forall j | 1 <= j <= SCAN_MINUTES :: ScanId(ws, at, j) == SelectedId(ws, at)
  {
    forall k | 1 <= k ensures ScanPoint(at, k) > ZERO_TIME {
      BeforeScanPoint(at, at, k);
    }
  }

  lemma LaterScanPoint(at: int, j: int, k: int)
    requires j <= k
    ensures ScanPoint(at, j) <= ScanPoint(at, k)
  {
  }

  /** From the horizon on, every instant has a scan point in its slot of the week. */
  lemma AfterHorizon(ws: seq<Window>, at: int, t: int)
    requires SelectableIds(ws) && ZERO_TIME < at && DatesPassed(ws, ScanPoint(at, LAST_DATE))
    requires forall j | 1 <= j <= SCAN_MINUTES :: ScanId(ws, at, j) == SelectedId(ws, at)
    requires ScanPoint(at, LAST_DATE) <= t
    ensures WindowFor(ws, t) == WindowFor(ws, at)
  {
    hide WindowFor, SelectableIds, DatesPassed;
    var horizon := ScanPoint(at, LAST_DATE);
    var offset := (MinuteNumber(t) - MinuteNumber(horizon)) % MINUTES_PER_WEEK;
    var p := ScanPoint(at, LAST_DATE + offset);
    SlotOf(MinuteNumber(horizon), MinuteNumber(t));
    BeforeScanPoint(at, at, LAST_DATE);
    SameSlotSameWindow(ws, horizon, t, p);
    assert ScanId(ws, at, LAST_DATE + offset) == SelectedId(ws, at);
    SameIdMeansSameSelection(ws, p, at);
  }

  lemma SlotOf(m: int, n: int)
    ensures (m + (n - m) % MINUTES_PER_WEEK) % MINUTES_PER_WEEK == n % MINUTES_PER_WEEK
  {
    var q, s := (n - m) / MINUTES_PER_WEEK, (n - m) % MINUTES_PER_WEEK;
    assert n == (m + s) + q * MINUTES_PER_WEEK;
  }

  /** One minute of the week, from a date on. */
  function WeeklyMinute(minute: int, from: int): Window {
    var start, day := MinuteOfDay(minute), IsoWeekday(minute);
    var bit := match day case 0 => 1 case 1 => 2 case 2 => 4 case 3 => 8 case 4 => 16 case 5 => 32 case _ => 64;
    Window("promo", "", start, start + 1, bit, 1, 2, [], 0, Some(from), None)
  }

  lemma WeeklyMinuteMatches(minute: int, from: int, x: int)
    ensures ValidWindow(WeeklyMinute(minute, from))
    ensures WeeklyMatch(WeeklyMinute(minute, from), x) <==> (x - minute) % MINUTES_PER_WEEK == 0
  {
    var w := WeeklyMinute(minute, from);
    assert forall d | 0 <= d < 7 :: HasDay(w.weekdayMask, d) <==> d == IsoWeekday(minute);
    SameSlot(x, minute);
  }

  lemma SameSlot(x: int, y: int)
    ensures MinuteOfDay(x) == MinuteOfDay(y) && IsoWeekday(x) == IsoWeekday(y) <==> (x - y) % MINUTES_PER_WEEK == 0
  {
    if MinuteOfDay(x) == MinuteOfDay(y) && IsoWeekday(x) == IsoWeekday(y) {
      WeeksApart(x, y);
    }
    if (x - y) % MINUTES_PER_WEEK == 0 {
      SlotOf(y, x);
      WeekSlot(x);
      WeekSlot(y);
    }
  }

  lemma WeeksApart(x: int, y: int)
    requires MinuteOfDay(x) == MinuteOfDay(y) && IsoWeekday(x) == IsoWeekday(y)
    ensures (x - y) % MINUTES_PER_WEEK == 0
  {
    var a, b := x / MINUTES_PER_DAY, y / MINUTES_PER_DAY;
    var k := (a + 3) / 7 - (b + 3) / 7;
    assert a - b == 7 * k;
    assert x - y == k * MINUTES_PER_WEEK;
  }

  lemma MissedByScan(at: int, j: int)
    requires j <= SCAN_MINUTES
    ensures !Matches(WeeklyMinute(MinuteNumber(at) + LAST_DATE, ScanPoint(at, LAST_DATE + 1)), ScanPoint(at, j))
  {
    WeeklyMinuteMatches(MinuteNumber(at) + LAST_DATE, ScanPoint(at, LAST_DATE + 1), MinuteNumber(at) + j);
  }

  /** A date one minute later breaks it: a window for one minute of the week that starts at
      the 1442nd scanned minute is not seen, although the answer "no change" was given. */
  lemma FutureDateIsNotSeen(at: int)
    requires ZERO_TIME < at
    ensures var ws := [WeeklyMinute(MinuteNumber(at) + LAST_DATE, ScanPoint(at, LAST_DATE + 1))];
            && ValidWindow(ws[0]) && SelectableIds(ws) && DatesPassed(ws, ScanPoint(at, LAST_DATE + 1))
            && IsScanResult(ws, at, ZERO_TIME)
            && at <= ScanPoint(at, SCAN_MINUTES + 1)
            && WindowFor(ws, ScanPoint(at, SCAN_MINUTES + 1)) != WindowFor(ws, at)
  {
    var minute, from := MinuteNumber(at) + LAST_DATE, ScanPoint(at, LAST_DATE + 1);
    var w := WeeklyMinute(minute, from);
    var ws := [w];
    WeeklyMinuteMatches(minute, from, minute);
    assert w.effectiveFrom == Some(from) && w.effectiveUntil.None? && w.id != "";
    hide WeeklyMatch, WeeklyMinute;
    WindowForIsBest(ws, at);
    forall j | 1 <= j <= SCAN_MINUTES ensures ScanId(ws, at, j) == SelectedId(ws, at) {
      MissedByScan(at, j);
      WindowForIsBest(ws, ScanPoint(at, j));
    }
    WeeklyMinuteMatches(minute, from, MinuteNumber(at) + SCAN_MINUTES + 1);
    WindowForIsBest(ws, ScanPoint(at, SCAN_MINUTES + 1));
    assert Matches(ws[0], ScanPoint(at, SCAN_MINUTES + 1));
  }

  /** What a caller can check of a rule set's dates: none lies after the n-th scan point, and
      none before it changes the selection. */
  predicate DatesWithin(ws: seq<Window>, at: int, n: int) {
    DatesPassed(ws, ScanPoint(at, n)) && QuietDates(ws, at, ScanPoint(at, n))
  }

  /** So 1441 is exactly how many scanned minutes ahead dates may lie. */
  lemma ScanHorizon(at: int, n: int)
    requires ZERO_TIME < at
    ensures (forall ws: seq<Window> | SelectableIds(ws) && DatesWithin(ws, at, n) && IsScanResult(ws, at, ZERO_TIME) :: NeverChanges(ws, at))
            <==> n <= 1441
  {
    hide SelectableIds, DatesWithin, IsScanResult, NeverChanges;
    forall ws: seq<Window> | n <= LAST_DATE && SelectableIds(ws) && DatesWithin(ws, at, n) && IsScanResult(ws, at, ZERO_TIME)
      ensures NeverChanges(ws, at)
    {
      EarlierDates(ws, at, n);
      hide *;
      NoBoundaryMeansNeverAgain(ws, at);
    }
    if n > LAST_DATE {
      var ws := HorizonNeeded(at, n);
    }
  }

  lemma EarlierDates(ws: seq<Window>, at: int, n: int)
    requires SelectableIds(ws) && DatesWithin(ws, at, n) && n <= LAST_DATE && ZERO_TIME < at && IsScanResult(ws, at, ZERO_TIME)
    ensures DatesPassed(ws, ScanPoint(at, LAST_DATE)) && QuietDates(ws, at, ScanPoint(at, LAST_DATE))
  {
    LaterScanPoint(at, n, LAST_DATE);
    NothingScanned(ws, at);
    hide IsScanResult, WindowFor, SelectableIds, ScanId, SelectedId;
    forall w | w in ws
      ensures Quiet(ws, w.effectiveFrom, at, ScanPoint(at, LAST_DATE)) && Quiet(ws, w.effectiveUntil, at, ScanPoint(at, LAST_DATE))
    {
      EarlierDate(ws, w.effectiveFrom, at, n);
      EarlierDate(ws, w.effectiveUntil, at, n);
    }
  }

  lemma EarlierDate(ws: seq<Window>, date: Option<int>, at: int, n: int)
    requires SelectableIds(ws) && n <= LAST_DATE && Quiet(ws, date, at, ScanPoint(at, n))
    requires date.Some? ==> date.value <= ScanPoint(at, n)
    requires forall j | 1 <= j <= SCAN_MINUTES :: ScanId(ws, at, j) == SelectedId(ws, at)
    ensures Quiet(ws, date, at, ScanPoint(at, LAST_DATE))
  {
    hide WindowFor, SelectableIds;
    if date == Some(ScanPoint(at, n)) && at < date.value {
      assert ScanId(ws, at, n) == SelectedId(ws, at);
      SameIdMeansSameSelection(ws, date.value, at);
    }
  }

  lemma HorizonNeeded(at: int, n: int) returns (ws: seq<Window>)
    requires ZERO_TIME < at && n > LAST_DATE
    ensures SelectableIds(ws) && DatesWithin(ws, at, n) && IsScanResult(ws, at, ZERO_TIME) && !NeverChanges(ws, at)
  {
    ws := [WeeklyMinute(MinuteNumber(at) + LAST_DATE, ScanPoint(at, LAST_DATE + 1))];
    FutureDateIsNotSeen(at);
    LaterHorizon(ws, at, n);
    hide WindowFor, IsScanResult, WeeklyMinute, DatesWithin, SelectableIds;
  }

  lemma LaterHorizon(ws: seq<Window>, at: int, n: int)
    requires n > LAST_DATE && ws == [WeeklyMinute(MinuteNumber(at) + LAST_DATE, ScanPoint(at, LAST_DATE + 1))]
    requires SelectableIds(ws) && ZERO_TIME < at && IsScanResult(ws, at, ZERO_TIME)
    ensures DatesWithin(ws, at, n)
  {
    var date := ScanPoint(at, LAST_DATE + 1);
    LaterScanPoint(at, LAST_DATE + 1, n);
    NothingScanned(ws, at);
    assert ws[0].effectiveFrom == Some(date) && ws[0].effectiveUntil.None?;
    hide WindowFor, IsScanResult, WeeklyMinute;
    assert ScanId(ws, at, LAST_DATE + 1) == SelectedId(ws, at);
    SameIdMeansSameSelection(ws, date, at);
  }
}
