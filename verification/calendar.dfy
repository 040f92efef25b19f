/** The month calendar on screen: the month shown and its navigation, the grid of whole weeks
    from the Sunday on or before the first of the month to the Saturday on or after its last
    day, and each cell's events, read in the selected zone. Days are Unix epoch day numbers. */
module Calendar {
  import opened Seqs
  import opened Civil
  import opened DateCodec
  import opened Records

  /** The month a calendar shows. */
  datatype MonthView = MonthView(year: int, month: int)

  predicate ValidView(v: MonthView) {
    1 <= v.month <= 12
  }

  /** The month of `now` in the selected zone, which the calendar opens on. */
  function OpenView(now: Instant, z: Zone): (v: MonthView)
    ensures ValidView(v)
    ensures FirstDay(v) * MsPerDay <= now + z.offsetMinutes * MsPerMinute
            < (FirstDay(v) + MonthLength(v)) * MsPerDay
  {
    var d := ZonedDate(now, z);
    var v := MonthView(d.year, d.month);
    DayOfMonth(v, EpochDay(d));
    EpochDayRoundTrip(d);
    v
  }

  function FirstDay(v: MonthView): int
    requires ValidView(v)
  {
    EpochDay(Date(v.year, v.month, 1))
  }

  function MonthLength(v: MonthView): (n: int)
    requires ValidView(v)
    ensures 28 <= n <= 31
  {
    DaysInMonth(v.year, v.month)
  }

  /** The next month starts the day after this one ends. */
  function NextMonth(v: MonthView): (r: MonthView)
    requires ValidView(v)
    ensures ValidView(r)
    ensures FirstDay(r) == FirstDay(v) + MonthLength(v)
  {
    if v.month == 12 then
      YearStep(v.year);
      MonthView(v.year + 1, 1)
    else
      MonthStep(v.year, v.month);
      MonthView(v.year, v.month + 1)
  }

  /** The previous month ends the day before this one starts. */
  function PrevMonth(v: MonthView): (r: MonthView)
    requires ValidView(v)
    ensures ValidView(r)
    ensures FirstDay(v) == FirstDay(r) + MonthLength(r)
  {
    if v.month == 1 then
      YearStep(v.year - 1);
      MonthView(v.year - 1, 12)
    else
      MonthStep(v.year, v.month - 1);
      MonthView(v.year, v.month - 1)
  }

  /** Going forward and back, or back and forward, returns to the same month. */
  lemma NavigationInverse(v: MonthView)
    requires ValidView(v)
    ensures PrevMonth(NextMonth(v)) == v && NextMonth(PrevMonth(v)) == v
  {
  }

  /** The days of a month are the epoch days from its first day on, for its length. */
  lemma DayOfMonth(v: MonthView, n: int)
    requires ValidView(v)
    ensures FromEpochDay(n).year == v.year && FromEpochDay(n).month == v.month
            <==> FirstDay(v) <= n < FirstDay(v) + MonthLength(v)
    ensures FirstDay(v) <= n < FirstDay(v) + MonthLength(v) ==> FromEpochDay(n).day == n - FirstDay(v) + 1
  {
    if FirstDay(v) <= n < FirstDay(v) + MonthLength(v) {
      var d := Date(v.year, v.month, n - FirstDay(v) + 1);
      assert EpochDay(d) == n;
      EpochDayRoundTrip(d);
    }
  }

  /** The Sunday on or before day n, and the Saturday on or after it. */
  lemma WeekBounds(n: int)
    ensures Weekday(n - Weekday(n)) == 0
    ensures Weekday(n + (6 - Weekday(n))) == 6
  {
  }

  /** From a Sunday to a later Saturday is a whole number of weeks. */
  lemma WholeWeeks(a: int, b: int)
    requires Weekday(a) == 0 && Weekday(b) == 6 && a <= b
    ensures (b - a + 1) % 7 == 0
  {
  }

  /** startOfWeek of the first of the month: the Sunday on or before it. */
  function GridStart(v: MonthView): (n: int)
    requires ValidView(v)
    ensures Weekday(n) == 0
    ensures n <= FirstDay(v) < n + 7
  {
    var first := FirstDay(v);
    WeekBounds(first);
    first - Weekday(first)
  }

  /** endOfWeek of the last day of the month: the Saturday on or after it. */
  function GridEnd(v: MonthView): (n: int)
    requires ValidView(v)
    ensures Weekday(n) == 6
    ensures n - 7 < FirstDay(v) + MonthLength(v) - 1 <= n
  {
    var last := FirstDay(v) + MonthLength(v) - 1;
    WeekBounds(last);
    last + (6 - Weekday(last))
  }

  /** The grid's days: whole weeks, four to six of them, covering the month. */
  function UiDays(v: MonthView): (r: seq<int>)
    requires ValidView(v)
    ensures |r| % 7 == 0 && 28 <= |r| <= 42
    ensures forall i :: 0 <= i < |r| ==> r[i] == GridStart(v) + i
    ensures Weekday(r[0]) == 0
    ensures r[0] <= FirstDay(v) < r[0] + 7
    ensures r[0] + |r| - 7 <= FirstDay(v) + MonthLength(v) - 1 < r[0] + |r|
  {
    var start := GridStart(v);
    var end := GridEnd(v);
    WholeWeeks(start, end);
    var len := end - start + 1;
    seq(len, i requires 0 <= i < len => start + i)
  }

  /** One cell: its date, its events, whether it belongs to the month shown, and whether it is
      today. */
  datatype DayCell = DayCell(day: Date, events: seq<Event>, inMonth: bool, isToday: bool)

  function OnDate(d: Date, z: Zone): Event -> bool {
    (e: Event) => ZonedDate(e.date, z) == d
  }

  /** The cell of epoch day n: the events are those whose instant falls in that day of the
      selected zone, in list order. */
  function Cell(n: int, v: MonthView, events: seq<Event>, now: Instant, z: Zone): (c: DayCell)
    requires ValidView(v)
    ensures ValidDate(c.day) && EpochDay(c.day) == n
    ensures c.inMonth <==> FirstDay(v) <= n < FirstDay(v) + MonthLength(v)
    ensures c.isToday <==> LocalMidnight(c.day, z) <= now < LocalMidnight(c.day, z) + MsPerDay
    ensures forall e :: e in c.events <==>
      e in events && LocalMidnight(c.day, z) <= e.date < LocalMidnight(c.day, z) + MsPerDay
  {
    var d := FromEpochDay(n);
    DayOfMonth(v, n);
    ZonedDateWindow(d, z);
    DayCell(d, Filter(events, OnDate(d, z)), d.year == v.year && d.month == v.month, d == ZonedDate(now, z))
  }

  /** The whole grid, one cell per day. */
  function MonthCells(v: MonthView, events: seq<Event>, now: Instant, z: Zone): (r: seq<DayCell>)
    requires ValidView(v)
    ensures |r| == |UiDays(v)|
    ensures forall i :: 0 <= i < |r| ==> r[i] == Cell(UiDays(v)[i], v, events, now, z)
  {
    var days := UiDays(v);
    seq(|days|, i requires 0 <= i < |days| => Cell(days[i], v, events, now, z))
  }

  /** A day of the month shown has its cell in the grid at its offset from the grid's Sunday. */
  lemma CellOfDay(v: MonthView, events: seq<Event>, now: Instant, z: Zone, d: Date)
    requires ValidView(v) && ValidDate(d) && d.year == v.year && d.month == v.month
    ensures var r := MonthCells(v, events, now, z); var i := EpochDay(d) - GridStart(v);
      0 <= i < |r| && r[i].day == d && r[i].inMonth
  {
    var r := MonthCells(v, events, now, z);
    var n := EpochDay(d);
    EpochDayRoundTrip(d);
    DayOfMonth(v, n);
    var i := n - GridStart(v);
    assert UiDays(v)[i] == n;
    assert r[i] == Cell(n, v, events, now, z);
  }

  /** A cell holding an event is the cell of the event's day in the selected zone. */
  lemma CellOfEvent(v: MonthView, events: seq<Event>, now: Instant, z: Zone, i: int, e: Event)
    requires ValidView(v)
    requires var r := MonthCells(v, events, now, z); 0 <= i < |r| && e in r[i].events
    ensures EpochDay(ZonedDate(e.date, z)) == GridStart(v) + i
  {
    var r := MonthCells(v, events, now, z);
    assert r[i] == Cell(UiDays(v)[i], v, events, now, z);
    ZonedDateUnique(e.date, z, r[i].day);
  }

  /** An event whose day in the selected zone lies in the month shown is in that day's cell. */
  lemma EventInItsCell(v: MonthView, events: seq<Event>, now: Instant, z: Zone, e: Event)
    requires ValidView(v) && e in events
    requires ZonedDate(e.date, z).year == v.year && ZonedDate(e.date, z).month == v.month
    ensures var r := MonthCells(v, events, now, z); var i := EpochDay(ZonedDate(e.date, z)) - GridStart(v);
      0 <= i < |r| && e in r[i].events && r[i].inMonth
  {
    var d := ZonedDate(e.date, z);
    CellOfDay(v, events, now, z, d);
  }

  /** No event is in two cells of the grid. */
  lemma EventInOneCell(v: MonthView, events: seq<Event>, now: Instant, z: Zone, e: Event)
    requires ValidView(v)
    ensures var r := MonthCells(v, events, now, z);
      forall i, j :: 0 <= i < |r| && 0 <= j < |r| && e in r[i].events && e in r[j].events ==> i == j
  {
    var r := MonthCells(v, events, now, z);
    forall i, j | 0 <= i < |r| && 0 <= j < |r| && e in r[i].events && e in r[j].events
      ensures i == j
    {
      CellOfEvent(v, events, now, z, i, e);
      CellOfEvent(v, events, now, z, j, e);
    }
  }

  /** An event whose day in the selected zone lies in the month shown appears in exactly one
      cell, and that cell belongs to the month. */
  lemma EventShownOnce(v: MonthView, events: seq<Event>, now: Instant, z: Zone, e: Event)
    requires ValidView(v) && e in events
    requires ZonedDate(e.date, z).year == v.year && ZonedDate(e.date, z).month == v.month
    ensures var r := MonthCells(v, events, now, z);
      exists i :: 0 <= i < |r| && e in r[i].events && r[i].inMonth
    ensures var r := MonthCells(v, events, now, z);
      forall i, j :: 0 <= i < |r| && 0 <= j < |r| && e in r[i].events && e in r[j].events ==> i == j
  {
    EventInItsCell(v, events, now, z, e);
    EventInOneCell(v, events, now, z, e);
  }

  /** The calendar opens on the month whose grid shows today's cell, inside the month and
      marked as today. */
  lemma OpenViewShowsToday(events: seq<Event>, now: Instant, z: Zone)
    ensures var v := OpenView(now, z); var r := MonthCells(v, events, now, z);
      exists i :: 0 <= i < |r| && r[i].isToday && r[i].inMonth && r[i].day == ZonedDate(now, z)
  {
    var v := OpenView(now, z);
    var r := MonthCells(v, events, now, z);
    var d := ZonedDate(now, z);
    CellOfDay(v, events, now, z, d);
    var i := EpochDay(d) - GridStart(v);
    assert r[i].isToday;
  }
}
