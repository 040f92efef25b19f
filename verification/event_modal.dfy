/** The event form: its initial contents for a new or an edited event, and the 12-hour time
    picker whose three selectors (hour, minute, AM/PM) read and rewrite one `HH:MM` value. */
module EventModal {
  import opened Wrappers
  import opened Text
  import opened Civil
  import opened DateCodec
  import opened Records
  import opened Clock

  /** Hour selector's shown value: 12 when no time is set. */
  function DisplayHour(t: string): (d: int)
    requires TimeField(t)
    ensures 1 <= d <= 12
    ensures t == "" ==> d == 12
    ensures t != "" ==> d % 12 == HourOf(t) % 12
  {
    if t == "" then 12 else DialHour(HourOf(t))
  }

  /** Minute selector's shown value: the text after the colon, `00` when no time is set. */
  function DisplayMinute(t: string): (m: string)
    requires TimeField(t)
    ensures |m| == 2 && AllDigits(m)
    ensures t == "" ==> m == "00"
    ensures t != "" ==> m == t[3..5] && Num2(m) == MinuteOf(t)
  {
    if t == "" then "00" else t[3..5]
  }

  /** AM/PM selector's shown value: PM from 12:00 on, AM when no time is set. */
  function DisplayHalf(t: string): (h: Half)
    requires TimeField(t)
    ensures h == PM <==> t != "" && HourOf(t) >= 12
  {
    if t == "" then AM else HalfOf(HourOf(t))
  }

  /** Every change handler starts from `12:00` when no time is set. */
  const Noon: string := "12:00"

  function Current(t: string): (c: string)
    requires TimeField(t)
    ensures WellFormedTime(c)
  {
    if t == "" then Noon else t
  }

  const MinuteOptions: seq<string> := ["00", "05", "10", "15", "20", "25", "30", "35", "40", "45", "50", "55"]

  /** Choosing a dial hour keeps the current half and minute. */
  function ChooseHour(t: string, dial: int): (r: string)
    requires TimeField(t)
    requires 1 <= dial <= 12
    ensures WellFormedTime(r)
    ensures DisplayHour(r) == dial
    ensures DisplayMinute(r) == DisplayMinute(t)
    ensures DisplayHalf(r) == HalfOf(HourOf(Current(t)))
  {
    var cur := Current(t);
    var hour := To24(dial, HalfOf(HourOf(cur)));
    To24RoundTrip(dial, HalfOf(HourOf(cur)));
    var r := Pad2(hour) + ":" + cur[3..5];
    assert r[0..2] == Pad2(hour) && r[3..5] == cur[3..5];
    r
  }

  /** The first hour picked on an empty time lands in the PM half although AM was shown. */
  lemma FirstHourPickIsPm(dial: int)
    requires 1 <= dial <= 12
    ensures DisplayHalf("") == AM
    ensures DisplayHalf(ChooseHour("", dial)) == PM
  {
    assert Noon[0..2] == "12";
  }

  /** Choosing a minute replaces the text after the colon and keeps the hour text verbatim. */
  function ChooseMinute(t: string, m: string): (r: string)
    requires TimeField(t)
    requires m in MinuteOptions
    ensures WellFormedTime(r)
    ensures r[0..2] == Current(t)[0..2]
    ensures DisplayMinute(r) == m
    ensures DisplayHour(r) == DisplayHour(t)
    ensures t != "" ==> DisplayHalf(r) == DisplayHalf(t)
  {
    var cur := Current(t);
    var r := cur[0..2] + ":" + m;
    assert r[0..2] == cur[0..2] && r[3..5] == m;
    assert Noon[0..2] == "12";
    r
  }

  /** The time text with its hour replaced and its minute text kept. */
  function WithHour(cur: string, hour: int): (r: string)
    requires WellFormedTime(cur) && 0 <= hour <= 23
    ensures WellFormedTime(r) && HourOf(r) == hour && r[3..5] == cur[3..5]
    ensures hour == HourOf(cur) ==> r == cur
  {
    var r := Pad2(hour) + ":" + cur[3..5];
    assert r[0..2] == Pad2(hour) && r[3..5] == cur[3..5];
    if hour == HourOf(cur) then
      Num2RoundTrip(cur[0..2]);
      assert cur == cur[0..2] + ":" + cur[3..5];
      r
    else r
  }

  /** Choosing a half moves the hour by twelve when it lies in the other half. */
  function ChooseHalf(t: string, half: Half): (r: string)
    requires TimeField(t)
    ensures WellFormedTime(r)
    ensures DisplayHalf(r) == half
    ensures DisplayHour(r) == DisplayHour(t)
    ensures DisplayMinute(r) == DisplayMinute(t)
    ensures t != "" && DisplayHalf(t) == half ==> r == t
  {
    var cur := Current(t);
    var hour := HourOf(cur);
    var hour' := if half == PM && hour < 12 then hour + 12
                 else if half == AM && hour >= 12 then hour - 12
                 else hour;
    assert hour' == To24(DialHour(hour), half);
    To24RoundTrip(DialHour(hour), half);
    assert Noon[0..2] == "12" && Noon[3..5] == "00";
    WithHour(cur, hour')
  }

  /** The three selectors show a set time faithfully: two set times that look the same are
      the same. */
  lemma DisplayDetermines(a: string, b: string)
    requires WellFormedTime(a) && WellFormedTime(b)
    requires DisplayHour(a) == DisplayHour(b) && DisplayHalf(a) == DisplayHalf(b)
    requires DisplayMinute(a) == DisplayMinute(b)
    ensures a == b
  {
    DialRoundTrip(HourOf(a));
    DialRoundTrip(HourOf(b));
    assert HourOf(a) == HourOf(b);
    Num2RoundTrip(a[0..2]);
    Num2RoundTrip(b[0..2]);
    assert a == a[0..2] + ":" + a[3..5];
    assert b == b[0..2] + ":" + b[3..5];
  }

  /** Choosing the other half and then the shown one again restores a set time. */
  lemma HalfToggleRestores(t: string)
    requires WellFormedTime(t)
    ensures var other := if DisplayHalf(t) == AM then PM else AM;
      ChooseHalf(ChooseHalf(t, other), DisplayHalf(t)) == t
  {
    var other := if DisplayHalf(t) == AM then PM else AM;
    var v := ChooseHalf(ChooseHalf(t, other), DisplayHalf(t));
    DisplayDetermines(v, t);
  }

  /** With the browser on the selected zone, formatTime shows what the three selectors show. */
  lemma ShownTimeMatchesPicker(t: string, z: Zone, placeholder: string)
    requires WellFormedTime(t)
    ensures ShownTime(t, z, z, placeholder)
      == Decimal(DisplayHour(t)) + ":" + DisplayMinute(t) + " " + HalfName(DisplayHalf(t))
  {
    Num2RoundTrip(t[3..5]);
  }

  /** The form's fields. For an edit the source's form also carries the event's id, owner,
      completion and timestamps, which the submit handler sends back unchanged. */
  datatype Draft = Draft(
    title: string,
    category: string,
    priority: Priority,
    date: string,
    time: string,
    description: string)

  /** A new form: empty title, time and description, category Work, priority Medium, and
      today's date in the selected zone. */
  function NewForm(now: Instant, z: Zone): (f: Draft)
    ensures f.title == "" && f.time == "" && f.description == ""
    ensures f.category == "Work" && f.priority == Medium
    ensures 0 <= ZonedDate(now, z).year <= 9999 ==> ParseFullDate(f.date) == Some(ZonedDate(now, z))
  {
    var d := ZonedDate(now, z);
    var f := Draft("", "Work", Medium, DayKey(now, z), "", "");
    if 0 <= d.year <= 9999 then FormatParse(d); f else f
  }

  /** An edit form: the event's fields, its date replaced by its `yyyy-MM-dd` in the selected
      zone. */
  function EditForm(e: Event, z: Zone): (f: Draft)
    ensures f.title == e.title && f.category == e.category && f.priority == e.priority
    ensures f.time == e.time && f.description == e.description
    ensures 0 <= ZonedDate(e.date, z).year <= 9999 ==> ParseFullDate(f.date) == Some(ZonedDate(e.date, z))
  {
    var d := ZonedDate(e.date, z);
    var f := Draft(e.title, e.category, e.priority, DayKey(e.date, z), e.time, e.description);
    if 0 <= d.year <= 9999 then FormatParse(d); f else f
  }

  /** Saving an edit form without touching the date keeps a date stored at local midnight of
      the same zone, and moves any other instant to the local midnight of its day. */
  lemma EditFormKeepsDate(e: Event, z: Zone)
    requires 0 <= ZonedDate(e.date, z).year <= 9999
    ensures EncodeFormDate(EditForm(e, z).date, z) == Ok(LocalMidnight(ZonedDate(e.date, z), z))
    ensures e.date == LocalMidnight(ZonedDate(e.date, z), z) ==> EncodeFormDate(EditForm(e, z).date, z) == Ok(e.date)
  {
  }
}
