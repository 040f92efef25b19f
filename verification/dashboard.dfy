/** The dashboard: the searched and filtered list in its display order, and the four counters
    above it. */
module Dashboard {
  import opened Seqs
  import opened Text
  import opened DateCodec
  import opened Records
  import opened Clock
  import DailyTable

  /** The category filter's value that keeps every category. */
  const AllCategories: string := "All"

  /** The title contains the search text, ignoring ASCII case, and the category is the chosen
      one unless every category is chosen. */
  predicate Matches(e: Event, search: string, category: string) {
    Contains(Lower(e.title), Lower(search)) && (category == AllCategories || e.category == category)
  }

  function Matching(search: string, category: string): Event -> bool {
    e => Matches(e, search, category)
  }

  /** Searching ignores the case of the search text. */
  lemma SearchIgnoresCase(e: Event, search: string, category: string)
    ensures Matches(e, Lower(search), category) <==> Matches(e, search, category)
  {
    LowerIdempotent(search);
  }

  /** The list's order: incomplete events first, then by instant, then timed events before
      untimed ones and by time text. */
  predicate ListLe(a: Event, b: Event) {
    if a.completed != b.completed then !a.completed
    else if a.date != b.date then a.date < b.date
    else TimeLe(a.time, b.time)
  }

  lemma ListLeIsPreorder()
    ensures TotalPreorder(ListLe)
  {
    forall a: Event, b: Event
      ensures ListLe(a, b) || ListLe(b, a)
    {
      TimeLeTotal(a.time, b.time);
    }
    forall a: Event, b: Event, c: Event | ListLe(a, b) && ListLe(b, c)
      ensures ListLe(a, c)
    {
      if a.completed == b.completed == c.completed && a.date == b.date == c.date {
        TimeLeTransitive(a.time, b.time, c.time);
      }
    }
  }

  /** The comparator as written. */
  function ListCmp(a: Event, b: Event): int {
    if a.completed != b.completed then (if a.completed then 1 else -1)
    else if a.date != b.date then a.date - b.date
    else TimeCmp(a.time, b.time)
  }

  /** The comparator follows ListLe except on two untimed events with the same status and
      instant, which it reports as each greater than the other. */
  lemma ListCmpAgrees(a: Event, b: Event)
    ensures var tie := a.completed == b.completed && a.date == b.date && a.time == "" && b.time == "";
      && (!tie ==> (ListCmp(a, b) <= 0 <==> ListLe(a, b)))
      && (tie ==> ListCmp(a, b) > 0 && ListCmp(b, a) > 0)
  {
    TimeCmpAgrees(a.time, b.time);
  }

  /** The events shown: the matching ones, in the list's order. */
  function Visible(events: seq<Event>, search: string, category: string): (r: seq<Event>)
    ensures multiset(r) == multiset(Filter(events, Matching(search, category)))
    ensures forall e :: e in r <==> e in events && Matches(e, search, category)
    ensures SortedBy(r, ListLe)
  {
    ListLeIsPreorder();
    var f := Filter(events, Matching(search, category));
    var r := SortBy(f, ListLe);
    SameElements(r, f);
    r
  }

  /** What the order means for the list: completed events sink to the bottom, each part runs
      in date order, and on one instant timed events come first, earliest first. */
  lemma VisibleOrder(events: seq<Event>, search: string, category: string, i: int, j: int)
    requires var r := Visible(events, search, category); 0 <= i < j < |r|
    ensures var r := Visible(events, search, category);
      && (r[i].completed ==> r[j].completed)
      && (r[i].completed == r[j].completed ==> r[i].date <= r[j].date)
      && (r[i].completed == r[j].completed && r[i].date == r[j].date ==>
            (r[i].time == "" ==> r[j].time == "")
            && (r[i].time != "" && r[j].time != "" ==> StrLe(r[i].time, r[j].time)))
  {
    var r := Visible(events, search, category);
    assert ListLe(r[i], r[j]);
  }

  /** With an empty search and every category chosen, every event is shown. */
  lemma ShowEverything(events: seq<Event>)
    ensures multiset(Visible(events, "", AllCategories)) == multiset(events)
  {
    forall e | e in events
      ensures Matching("", AllCategories)(e)
    {
      ContainsEmpty(Lower(e.title));
    }
    FilterAll(events, Matching("", AllCategories));
  }

  /** The dashboard's time label: empty for no time. */
  function TimeLabel(e: Event, browser: Zone, selected: Zone): (s: string)
    requires TimeField(e.time)
    ensures s == "" <==> e.time == ""
  {
    ShownTime(e.time, browser, selected, "")
  }

  datatype Stats = Stats(total: nat, completed: nat, remaining: int, today: nat)

  function IsCompleted(e: Event): bool {
    e.completed
  }

  function IsPending(e: Event): bool {
    !e.completed
  }

  /** Every event is completed or pending. */
  lemma {:induction false} CompletedOrPending(events: seq<Event>)
    ensures Count(events, IsCompleted) + Count(events, IsPending) == |events|
  {
    if events != [] {
      CompletedOrPending(events[1..]);
    }
  }

  /** The counters: all events, completed ones, the rest, and those on today's date in the
      selected zone, which are the rows of the daily table in either mode. */
  function ComputeStats(events: seq<Event>, now: Instant, z: Zone): (r: Stats)
    ensures r.total == |events|
    ensures r.completed + r.remaining == r.total
    ensures r.remaining == Count(events, IsPending)
    ensures r.today == |DailyTable.TodayEvents(events, now, z, DailyTable.ByTime)|
    ensures r.today == |DailyTable.TodayEvents(events, now, z, DailyTable.ByPriority)|
  {
    var completed := Count(events, IsCompleted);
    CompletedOrPending(events);
    Stats(|events|, completed, |events| - completed, Count(events, DailyTable.Today(now, z)))
  }
}
