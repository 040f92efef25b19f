/** Times of day as the event's `time` field holds them: an empty text for "no time", otherwise
    24-hour `HH:MM`. Their 12-hour reading, the order the views sort them in, and their
    `h:mm a` rendering. */
module Clock {
  import opened Text
  import opened DateCodec

  datatype Half = AM | PM

  function HalfName(h: Half): string {
    match h
    case AM => "AM"
    case PM => "PM"
  }

  /** A 24-hour `HH:MM` text. */
  predicate WellFormedTime(t: string) {
    && |t| == 5 && t[2] == ':'
    && AllDigits(t[0..2]) && AllDigits(t[3..5])
    && Num2(t[0..2]) <= 23 && Num2(t[3..5]) <= 59
  }

  /** A time field: empty while no time is chosen, otherwise well formed. */
  predicate TimeField(t: string) {
    t == "" || WellFormedTime(t)
  }

  function HourOf(t: string): (h: int)
    requires WellFormedTime(t)
    ensures 0 <= h <= 23
  {
    Num2(t[0..2])
  }

  function MinuteOf(t: string): (m: int)
    requires WellFormedTime(t)
    ensures 0 <= m <= 59
  {
    Num2(t[3..5])
  }

  const MinutesPerDay: int := 1440

  function MinuteOfDay(t: string): (m: int)
    requires WellFormedTime(t)
    ensures 0 <= m < MinutesPerDay
    ensures m / 60 == HourOf(t) && m % 60 == MinuteOf(t)
  {
    HourOf(t) * 60 + MinuteOf(t)
  }

  /** A well-formed time is its minute of the day: distinct texts are distinct minutes. */
  lemma MinuteOfDayInjective(a: string, b: string)
    requires WellFormedTime(a) && WellFormedTime(b)
    ensures MinuteOfDay(a) == MinuteOfDay(b) <==> a == b
  {
    if MinuteOfDay(a) == MinuteOfDay(b) {
      Num2RoundTrip(a[0..2]);
      Num2RoundTrip(b[0..2]);
      Num2RoundTrip(a[3..5]);
      Num2RoundTrip(b[3..5]);
      assert a == a[0..2] + ":" + a[3..5];
      assert b == b[0..2] + ":" + b[3..5];
    }
  }

  /** Hour on the 12-hour dial for a 24-hour hour: 0 and 12 show as 12. */
  function DialHour(h: int): (d: int)
    requires 0 <= h <= 23
    ensures 1 <= d <= 12
    ensures d % 12 == h % 12
  {
    if h % 12 == 0 then 12 else h % 12
  }

  function HalfOf(h: int): Half {
    if h >= 12 then PM else AM
  }

  /** 24-hour hour for a dial hour in a half: 12 AM is 0, 12 PM is 12. */
  function To24(dial: int, half: Half): (h: int)
    requires 1 <= dial <= 12
    ensures 0 <= h <= 23
  {
    if half == PM && dial != 12 then dial + 12
    else if half == AM && dial == 12 then 0
    else dial
  }

  /** The dial hour and the half determine the 24-hour hour and are determined by it. */
  lemma DialRoundTrip(h: int)
    requires 0 <= h <= 23
    ensures To24(DialHour(h), HalfOf(h)) == h
  {
  }

  lemma To24RoundTrip(dial: int, half: Half)
    requires 1 <= dial <= 12
    ensures DialHour(To24(dial, half)) == dial && HalfOf(To24(dial, half)) == half
  {
  }

  /** `localeCompare` on two time texts, taken as code-unit order: negative, zero or positive. */
  function LocaleCompare(a: string, b: string): (r: int)
    ensures r == 0 <==> a == b
    ensures r < 0 <==> StrLe(a, b) && a != b
    ensures r > 0 <==> StrLe(b, a) && a != b
  {
    StrLeTotal(a, b);
    if a == b then 0
    else if StrLe(a, b) then
      if StrLe(b, a) then StrLeAntisymmetric(a, b); -1 else -1
    else 1
  }

  /** The views' time order: timed events before untimed ones, timed ones by their text. */
  predicate TimeLe(a: string, b: string) {
    if a == "" then b == ""
    else b == "" || StrLe(a, b)
  }

  lemma TimeLeTotal(a: string, b: string)
    ensures TimeLe(a, b) || TimeLe(b, a)
  {
    StrLeTotal(a, b);
  }

  lemma TimeLeTransitive(a: string, b: string, c: string)
    requires TimeLe(a, b) && TimeLe(b, c)
    ensures TimeLe(a, c)
  {
    if a != "" && b != "" && c != "" {
      StrLeTransitive(a, b, c);
    }
  }

  /** For two set `HH:MM` times the text order is the order of the day. */
  lemma TimeLeChronological(a: string, b: string)
    requires WellFormedTime(a) && WellFormedTime(b)
    ensures TimeLe(a, b) <==> MinuteOfDay(a) <= MinuteOfDay(b)
  {
    StrLeStep(a, b);
    StrLeStep(a[1..], b[1..]);
    StrLeStep(a[2..], b[2..]);
    StrLeStep(a[3..], b[3..]);
    StrLeStep(a[4..], b[4..]);
    assert a[1..][0] == a[1] && a[2..][0] == a[2] && a[3..][0] == a[3] && a[4..][0] == a[4];
    assert b[1..][0] == b[1] && b[2..][0] == b[2] && b[3..][0] == b[3] && b[4..][0] == b[4];
    assert a[1..][1..] == a[2..] && a[2..][1..] == a[3..] && a[3..][1..] == a[4..] && a[4..][1..] == [];
    assert b[1..][1..] == b[2..] && b[2..][1..] == b[3..] && b[3..][1..] == b[4..] && b[4..][1..] == [];
    assert IsDigit(a[0]) && IsDigit(a[1]) && IsDigit(a[3]) && IsDigit(a[4]);
    assert IsDigit(b[0]) && IsDigit(b[1]) && IsDigit(b[3]) && IsDigit(b[4]);
    var ta, tb := a[3..5], b[3..5];
    assert ta[0] == a[3] && ta[1] == a[4] && tb[0] == b[3] && tb[1] == b[4];
    assert MinuteOf(a) == 10 * DigitValue(a[3]) + DigitValue(a[4]);
    assert MinuteOf(b) == 10 * DigitValue(b[3]) + DigitValue(b[4]);
  }

  /** The tie-break comparator as written: `!a.time` answers 1 before `b.time` is looked at. */
  function TimeCmp(a: string, b: string): int {
    if a == "" then 1
    else if b == "" then -1
    else LocaleCompare(a, b)
  }

  /** The comparator follows TimeLe on every pair except two untimed events, which it reports
      as each greater than the other. */
  lemma TimeCmpAgrees(a: string, b: string)
    ensures !(a == "" && b == "") ==> (TimeCmp(a, b) <= 0 <==> TimeLe(a, b))
    ensures a == "" && b == "" ==> TimeCmp(a, b) > 0 && TimeCmp(b, a) > 0
  {
    StrLeTotal(a, b);
  }

  /** `h:mm a` for a minute of the day. */
  function ClockText(m: int): (s: string)
    requires 0 <= m < MinutesPerDay
    ensures ':' in s && s != "-"
  {
    var d := Decimal(DialHour(m / 60));
    var s := d + ":" + Pad2(m % 60) + " " + HalfName(HalfOf(m / 60));
    assert s[|d|] == ':';
    s
  }

  /** formatTime: the placeholder for no time; otherwise the time is set on a date in the
      browser's zone and read back as a wall clock in the selected zone, so it moves by the
      difference of the two offsets. */
  function ShownTime(t: string, browser: Zone, selected: Zone, placeholder: string): (r: string)
    requires TimeField(t)
    ensures t == "" ==> r == placeholder
    ensures t != "" ==> ':' in r
    ensures t != "" && browser == selected ==> r == ClockText(MinuteOfDay(t))
  {
    if t == "" then placeholder
    else ClockText(ShiftedMinute(MinuteOfDay(t), browser, selected))
  }

  /** The minute of the day that the selected zone's clock shows when the browser's clock shows
      minute m. */
  function ShiftedMinute(m: int, browser: Zone, selected: Zone): (r: int)
    requires 0 <= m < MinutesPerDay
    ensures 0 <= r < MinutesPerDay
    ensures browser == selected ==> r == m
    ensures (r - m - selected.offsetMinutes + browser.offsetMinutes) % MinutesPerDay == 0
  {
    (m + selected.offsetMinutes - browser.offsetMinutes) % MinutesPerDay
  }

  /** A 9:00 entered with the browser on UTC shows as 4:00 AM when New York (UTC-5) is
      selected. */
  lemma ShownTimeShiftScenario()
    ensures ShownTime("09:00", Utc, Zone(-300), "") == "4:00 AM"
  {
    var t := "09:00";
    assert t[0..2] == "09" && t[3..5] == "00";
    assert Num2("09") == 9 && Num2("00") == 0;
    assert MinuteOfDay(t) == 540;
    assert ShiftedMinute(540, Utc, Zone(-300)) == 240;
    assert DialHour(4) == 4 && HalfOf(4) == AM;
    assert Decimal(4) == "4" && Pad2(0) == "00";
  }
}
