/** The calendar's PDF export: a fixed grid of six weeks from the Sunday on or before the first
    of the exported month, each cell listing at most four of the day's events with a colour for
    their priority and a "+ N more" line, followed by a table of the month's events in date
    order. The export reads events in the browser's own zone, not in the selected one. */
module CalendarExport {
  import opened Wrappers
  import opened Seqs
  import opened Text
  import opened Civil
  import opened DateCodec
  import opened Records
  import opened Calendar

  const GridDays: int := 42
  const MaxEntries: int := 4

  /** The export's 42 days: six whole weeks from the same Sunday as the on-screen grid. */
  function PdfDays(v: MonthView): (r: seq<int>)
    requires ValidView(v)
    ensures |r| == GridDays
    ensures forall i :: 0 <= i < |r| ==> r[i] == GridStart(v) + i
    ensures UiDays(v) == r[..|UiDays(v)|]
  {
    var start := GridStart(v);
    seq(GridDays, i requires 0 <= i < GridDays => start + i)
  }

  /** A day of the export grid belongs to the exported month, to the month before or to the
      month after; comparing the month number alone therefore tells the exported month's days
      apart from the others. */
  lemma MonthNumberSuffices(v: MonthView, n: int)
    requires ValidView(v)
    requires GridStart(v) <= n < GridStart(v) + GridDays
    ensures FromEpochDay(n).month == v.month <==>
      FromEpochDay(n).year == v.year && FromEpochDay(n).month == v.month
  {
    var prev, next := PrevMonth(v), NextMonth(v);
    var _ := MonthLength(prev);
    var _ := MonthLength(next);
    if n < FirstDay(v) {
      DayOfMonth(prev, n);
    } else if n < FirstDay(next) {
      DayOfMonth(v, n);
    } else {
      DayOfMonth(next, n);
    }
  }

  datatype Rgb = Rgb(red: int, green: int, blue: int)

  /** The priority marker's colour: red for High, orange for Medium, blue otherwise. */
  function PriorityColour(p: Priority): (c: Rgb)
    ensures p == High ==> c == Rgb(239, 68, 68)
    ensures p == Medium ==> c == Rgb(249, 115, 22)
    ensures p == Low ==> c == Rgb(59, 130, 246)
  {
    match p
    case High => Rgb(239, 68, 68)
    case Medium => Rgb(249, 115, 22)
    case Low => Rgb(59, 130, 246)
  }

  /** The marker tells the three priorities apart. */
  lemma ColoursDistinct(p: Priority, q: Priority)
    ensures PriorityColour(p) == PriorityColour(q) <==> p == q
  {
  }

  datatype PdfEntry = PdfEntry(colour: Rgb, text: string)

  /** One cell: the day of the month, whether it belongs to the exported month, the first
      events of the day, and how many more there are. */
  datatype PdfCell = PdfCell(dayOfMonth: int, inMonth: bool, entries: seq<PdfEntry>, more: Option<nat>)

  function Entry(e: Event): (x: PdfEntry)
    ensures x.colour == PriorityColour(e.priority)
    ensures |x.text| <= TitleLimit + 3
    ensures |e.title| <= TitleLimit ==> x.text == e.title
  {
    PdfEntry(PriorityColour(e.priority), TruncateTitle(e.title))
  }

  /** The cell of epoch day n, with the day's events read in the browser's zone. */
  function PdfCellFor(n: int, v: MonthView, events: seq<Event>, browser: Zone): (c: PdfCell)
    requires ValidView(v)
    ensures var day := Filter(events, OnDate(FromEpochDay(n), browser));
      && |c.entries| == (if |day| < MaxEntries then |day| else MaxEntries)
      && (forall i :: 0 <= i < |c.entries| ==> c.entries[i] == Entry(day[i]))
      && (c.more.Some? <==> |day| > MaxEntries)
      && |c.entries| + c.more.GetOr(0) == |day|
    ensures c.dayOfMonth == FromEpochDay(n).day
    ensures c.inMonth <==> FromEpochDay(n).month == v.month
  {
    var d := FromEpochDay(n);
    var day := Filter(events, OnDate(d, browser));
    var shown := if |day| < MaxEntries then day else day[..MaxEntries];
    var entries := seq(|shown|, i requires 0 <= i < |shown| => Entry(shown[i]));
    PdfCell(d.day, d.month == v.month, entries, if |day| > MaxEntries then Some(|day| - MaxEntries) else None)
  }

  /** The export grid, one cell per day. */
  function PdfGrid(v: MonthView, events: seq<Event>, browser: Zone): (r: seq<PdfCell>)
    requires ValidView(v)
    ensures |r| == GridDays
    ensures forall i :: 0 <= i < |r| ==> r[i] == PdfCellFor(PdfDays(v)[i], v, events, browser)
  {
    var days := PdfDays(v);
    seq(GridDays, i requires 0 <= i < GridDays => PdfCellFor(days[i], v, events, browser))
  }

  /** The cells marked as the exported month are exactly its days. */
  lemma PdfInMonthExact(v: MonthView, events: seq<Event>, browser: Zone, i: int)
    requires ValidView(v) && 0 <= i < GridDays
    ensures PdfGrid(v, events, browser)[i].inMonth <==>
      FirstDay(v) <= PdfDays(v)[i] < FirstDay(v) + MonthLength(v)
  {
    var n := PdfDays(v)[i];
    MonthNumberSuffices(v, n);
    DayOfMonth(v, n);
  }

  /** The detail table's month test as written: the month number alone. */
  function InMonthAsWritten(v: MonthView, browser: Zone): Event -> bool {
    (e: Event) => ZonedDate(e.date, browser).month == v.month
  }

  /** The detail table's month test with the year: the exported month itself. */
  function InMonth(v: MonthView, browser: Zone): Event -> bool {
    (e: Event) => ZonedDate(e.date, browser).year == v.year && ZonedDate(e.date, browser).month == v.month
  }

  predicate DateLe(a: Event, b: Event) {
    a.date <= b.date
  }

  lemma DateLeIsPreorder()
    ensures TotalPreorder(DateLe)
  {
  }

  /** The detail table's events as written: the exported month's number in any year. */
  function DetailEventsAsWritten(events: seq<Event>, v: MonthView, browser: Zone): (r: seq<Event>)
    ensures multiset(r) == multiset(Filter(events, InMonthAsWritten(v, browser)))
    ensures forall e :: e in r <==> e in events && ZonedDate(e.date, browser).month == v.month
    ensures SortedBy(r, DateLe)
  {
    DateLeIsPreorder();
    var f := Filter(events, InMonthAsWritten(v, browser));
    var r := SortBy(f, DateLe);
    SameElements(r, f);
    r
  }

  /** An event from March 2024 is listed in the details of March 2025. */
  lemma OtherYearListed()
    ensures var v := MonthView(2025, 3);
      var e := Event(0, 0, "Review", "Work", Medium, LocalMidnight(Date(2024, 3, 10), Utc), "", "", false, 0, 0);
      e in DetailEventsAsWritten([e], v, Utc) && ZonedDate(e.date, Utc).year != v.year
  {
    MidnightRoundTrip(Date(2024, 3, 10), Utc);
  }

  /** The detail table's events: exactly those whose day in the browser's zone lies in the
      exported month, in date order. */
  function DetailEvents(events: seq<Event>, v: MonthView, browser: Zone): (r: seq<Event>)
    ensures multiset(r) == multiset(Filter(events, InMonth(v, browser)))
    ensures forall e :: e in r <==>
      e in events && ZonedDate(e.date, browser).year == v.year && ZonedDate(e.date, browser).month == v.month
    ensures SortedBy(r, DateLe)
  {
    DateLeIsPreorder();
    var f := Filter(events, InMonth(v, browser));
    var r := SortBy(f, DateLe);
    SameElements(r, f);
    r
  }

  /** Every event drawn in a cell of the exported month is also listed in the detail table. */
  lemma GridEventsListed(v: MonthView, events: seq<Event>, browser: Zone, i: int, e: Event)
    requires ValidView(v) && 0 <= i < GridDays
    requires PdfGrid(v, events, browser)[i].inMonth
    requires e in Filter(events, OnDate(FromEpochDay(PdfDays(v)[i]), browser))
    ensures e in DetailEvents(events, v, browser)
  {
    MonthNumberSuffices(v, PdfDays(v)[i]);
  }

  const MonthAbbreviations: seq<string> :=
    ["Jan", "Feb", "Mar", "Apr", "May", "Jun", "Jul", "Aug", "Sep", "Oct", "Nov", "Dec"]

  /** `MMM dd`: the month's abbreviation and the zero-padded day. */
  function MonthDay(d: Date): (s: string)
    requires ValidDate(d)
    ensures |s| == 6 && s[3] == ' ' && AllDigits(s[4..])
    ensures s[..3] == MonthAbbreviations[d.month - 1]
    ensures Num2(s[4..]) == d.day
  {
    var s := MonthAbbreviations[d.month - 1] + " " + Pad2(d.day);
    assert s[4..] == Pad2(d.day);
    s
  }

  /** Distinct days of one year have distinct `MMM dd` labels. */
  lemma MonthDayInjective(a: Date, b: Date)
    requires ValidDate(a) && ValidDate(b)
    ensures MonthDay(a) == MonthDay(b) <==> a.month == b.month && a.day == b.day
  {
    if MonthDay(a) == MonthDay(b) {
      assert MonthAbbreviations[a.month - 1] == MonthAbbreviations[b.month - 1];
    }
  }

  /** One detail row: date, time, title, category, priority and description, with `-` for an
      empty time or description. */
  function DetailRow(e: Event, browser: Zone): (row: seq<string>)
    ensures |row| == 6
    ensures row[0] == MonthDay(ZonedDate(e.date, browser))
    ensures row[1] == (if e.time == "" then "-" else e.time)
    ensures row[2] == e.title && row[3] == e.category
    ensures ParsePriority(row[4]) == Some(e.priority)
    ensures row[5] == (if e.description == "" then "-" else e.description)
  {
    PriorityNameRoundTrip(e.priority);
    [MonthDay(ZonedDate(e.date, browser)),
     if e.time == "" then "-" else e.time,
     e.title, e.category, PriorityName(e.priority),
     if e.description == "" then "-" else e.description]
  }

  /** The detail table's body: one row per event given, in the order given. The source builds
      it from DetailEventsAsWritten; the corrected table passes DetailEvents. */
  function DetailRows(events: seq<Event>, browser: Zone): (rows: seq<seq<string>>)
    ensures |rows| == |events|
    ensures forall i :: 0 <= i < |rows| ==> rows[i] == DetailRow(events[i], browser)
  {
    seq(|events|, i requires 0 <= i < |events| => DetailRow(events[i], browser))
  }
}
