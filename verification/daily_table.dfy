/** The daily table: the events whose day in the selected zone is today, sorted by time or by
    priority, and the rows of its PDF export. */
module DailyTable {
  import opened Wrappers
  import opened Seqs
  import opened Text
  import opened Civil
  import opened DateCodec
  import opened Records
  import opened Clock

  datatype SortMode = ByTime | ByPriority

  const InitialMode: SortMode := ByTime

  /** The switch flips between the two modes. */
  function Toggle(m: SortMode): (r: SortMode)
    ensures r != m
  {
    if m == ByTime then ByPriority else ByTime
  }

  lemma ToggleTwice(m: SortMode)
    ensures Toggle(Toggle(m)) == m
  {
  }

  /** The priority order of the table: High 3, Medium 2, Low 1. */
  function Rank(p: Priority): (n: int)
    ensures 1 <= n <= 3
  {
    match p
    case High => 3
    case Medium => 2
    case Low => 1
  }

  /** Distinct priorities have distinct ranks, High above Medium above Low. */
  lemma RankOrder(p: Priority, q: Priority)
    ensures Rank(p) == Rank(q) <==> p == q
    ensures Rank(High) > Rank(Medium) > Rank(Low)
  {
  }

  /** The event's day in the zone is the day of `now`, compared as `yyyy-MM-dd` texts. */
  predicate OnDay(e: Event, now: Instant, z: Zone) {
    DayKey(e.date, z) == DayKey(now, z)
  }

  function Today(now: Instant, z: Zone): Event -> bool {
    e => OnDay(e, now, z)
  }

  /** Comparing the texts is comparing the calendar days, for four-digit years. */
  lemma OnDayIsSameDate(e: Event, now: Instant, z: Zone)
    requires 0 <= ZonedDate(e.date, z).year <= 9999 && 0 <= ZonedDate(now, z).year <= 9999
    ensures OnDay(e, now, z) <==> ZonedDate(e.date, z) == ZonedDate(now, z)
  {
    DayKeyMatchesDate(e.date, now, z);
  }

  /** An event is on today's list exactly during the day that starts at local midnight. */
  lemma OnDayWindow(e: Event, now: Instant, z: Zone)
    requires 0 <= ZonedDate(now, z).year <= 9999
    requires 0 <= ZonedDate(e.date, z).year <= 9999
    ensures var start := LocalMidnight(ZonedDate(now, z), z);
      OnDay(e, now, z) <==> start <= e.date < start + MsPerDay
  {
    OnDayIsSameDate(e, now, z);
    var d := ZonedDate(now, z);
    if LocalMidnight(d, z) <= e.date < LocalMidnight(d, z) + MsPerDay {
      ZonedDateUnique(e.date, z, d);
    }
  }

  /** The table's order: in priority mode higher priority first, then by time in both modes. */
  predicate OrderLe(mode: SortMode, a: Event, b: Event) {
    if mode == ByPriority && a.priority != b.priority then Rank(a.priority) > Rank(b.priority)
    else TimeLe(a.time, b.time)
  }

  function Order(mode: SortMode): (Event, Event) -> bool {
    (a, b) => OrderLe(mode, a, b)
  }

  lemma OrderIsPreorder(mode: SortMode)
    ensures TotalPreorder(Order(mode))
  {
    forall a: Event, b: Event
      ensures Order(mode)(a, b) || Order(mode)(b, a)
    {
      TimeLeTotal(a.time, b.time);
    }
    forall a: Event, b: Event, c: Event | Order(mode)(a, b) && Order(mode)(b, c)
      ensures Order(mode)(a, c)
    {
      if !(mode == ByPriority && (a.priority != b.priority || b.priority != c.priority)) {
        TimeLeTransitive(a.time, b.time, c.time);
      }
    }
  }

  /** The comparator as written. */
  function TableCmp(mode: SortMode, a: Event, b: Event): int {
    var diff := Rank(b.priority) - Rank(a.priority);
    if mode == ByPriority && diff != 0 then diff
    else TimeCmp(a.time, b.time)
  }

  /** The comparator follows OrderLe except on two untimed events that the mode does not
      separate, which it reports as each greater than the other. */
  lemma TableCmpAgrees(mode: SortMode, a: Event, b: Event)
    ensures var tie := (mode == ByTime || a.priority == b.priority) && a.time == "" && b.time == "";
      && (!tie ==> (TableCmp(mode, a, b) <= 0 <==> OrderLe(mode, a, b)))
      && (tie ==> TableCmp(mode, a, b) > 0 && TableCmp(mode, b, a) > 0)
  {
    TimeCmpAgrees(a.time, b.time);
    RankOrder(a.priority, b.priority);
  }

  /** Today's events in the table's order. */
  function TodayEvents(events: seq<Event>, now: Instant, z: Zone, mode: SortMode): (r: seq<Event>)
    ensures multiset(r) == multiset(Filter(events, Today(now, z)))
    ensures |r| == Count(events, Today(now, z))
    ensures forall e :: e in r <==> e in events && OnDay(e, now, z)
    ensures SortedBy(r, Order(mode))
  {
    OrderIsPreorder(mode);
    var f := Filter(events, Today(now, z));
    var r := SortBy(f, Order(mode));
    SameElements(r, f);
    r
  }

  /** What the order means for the rows: in priority mode priorities never rise down the
      table, and among rows the mode does not separate timed rows come first, earliest first. */
  lemma TodayOrder(events: seq<Event>, now: Instant, z: Zone, mode: SortMode, i: int, j: int)
    requires var r := TodayEvents(events, now, z, mode); 0 <= i < j < |r|
    ensures var r := TodayEvents(events, now, z, mode);
      && (mode == ByPriority ==> Rank(r[i].priority) >= Rank(r[j].priority))
      && (mode == ByTime || r[i].priority == r[j].priority ==>
            (r[i].time == "" ==> r[j].time == "")
            && (r[i].time != "" && r[j].time != "" ==> StrLe(r[i].time, r[j].time)))
  {
    var r := TodayEvents(events, now, z, mode);
    assert Order(mode)(r[i], r[j]);
  }

  const PdfHeader: seq<string> := ["Time", "Task", "Category", "Priority", "Status"]

  /** One PDF row: the time (`-` for none), title, category, priority and status. */
  function PdfRow(e: Event, browser: Zone, selected: Zone): (row: seq<string>)
    requires TimeField(e.time)
    ensures |row| == |PdfHeader|
    ensures row[0] == "-" <==> e.time == ""
    ensures row[1] == e.title && row[2] == e.category
    ensures ParsePriority(row[3]) == Some(e.priority)
    ensures row[4] == "Completed" <==> e.completed
    ensures row[4] == "Pending" <==> !e.completed
  {
    PriorityNameRoundTrip(e.priority);
    [ShownTime(e.time, browser, selected, "-"), e.title, e.category, PriorityName(e.priority),
     if e.completed then "Completed" else "Pending"]
  }

  /** The export's body: one row per event of the table, in the table's order. */
  function PdfRows(events: seq<Event>, browser: Zone, selected: Zone): (rows: seq<seq<string>>)
    requires forall i :: 0 <= i < |events| ==> TimeField(events[i].time)
    ensures |rows| == |events|
    ensures forall i :: 0 <= i < |rows| ==> rows[i] == PdfRow(events[i], browser, selected)
  {
    seq(|events|, i requires 0 <= i < |events| => PdfRow(events[i], browser, selected))
  }
}
