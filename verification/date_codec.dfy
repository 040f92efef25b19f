/** Conversions between calendar dates and instants under a timezone, and between
    calendar dates and their `full-date` text (section 5.6 of RFC 3339). Timezones are
    fixed offsets from UTC; daylight-saving rules are not modelled. */
module DateCodec {
  import opened Civil
  import opened Text
  import opened Wrappers

  /** Milliseconds since 1970-01-01T00:00:00Z, the value of Date.prototype.getTime. */
  type Instant = int

  /** A timezone, as its offset from UTC in minutes (east positive). */
  datatype Zone = Zone(offsetMinutes: int)

  const MsPerMinute: int := 60000
  const MsPerDay: int := 86400000

  const Utc: Zone := Zone(0)

  /** The instant at which the wall clock of zone z shows 00:00 on date d
      (fromZonedTime on `<d>T00:00:00`). */
  function LocalMidnight(d: Date, z: Zone): (t: Instant)
    requires ValidDate(d)
    ensures t + z.offsetMinutes * MsPerMinute == EpochDay(d) * MsPerDay
  {
    EpochDay(d) * MsPerDay - z.offsetMinutes * MsPerMinute
  }

  /** The calendar date the wall clock of zone z shows at instant t
      (toZonedTime followed by reading the year, month and day). */
  function ZonedDate(t: Instant, z: Zone): (d: Date)
    ensures ValidDate(d)
    ensures LocalMidnight(d, z) <= t < LocalMidnight(d, z) + MsPerDay
  {
    FromEpochDay((t + z.offsetMinutes * MsPerMinute) / MsPerDay)
  }

  /** The zoned date of t is the only date whose local day contains t. */
  lemma ZonedDateUnique(t: Instant, z: Zone, d: Date)
    requires ValidDate(d)
    requires LocalMidnight(d, z) <= t < LocalMidnight(d, z) + MsPerDay
    ensures ZonedDate(t, z) == d
  {
    var e := ZonedDate(t, z);
    assert EpochDay(e) == EpochDay(d);
    DayNumberInjective(e, d);
  }

  /** An instant's zoned date is d exactly when it falls in the day that starts at d's local
      midnight. */
  lemma ZonedDateWindow(d: Date, z: Zone)
    requires ValidDate(d)
    ensures forall t :: ZonedDate(t, z) == d <==> LocalMidnight(d, z) <= t < LocalMidnight(d, z) + MsPerDay
  {
    forall t | LocalMidnight(d, z) <= t < LocalMidnight(d, z) + MsPerDay
      ensures ZonedDate(t, z) == d
    {
      ZonedDateUnique(t, z, d);
    }
  }

  /** Decoding the local midnight of d in the same zone gives d back: no off-by-one day. */
  lemma MidnightRoundTrip(d: Date, z: Zone)
    requires ValidDate(d)
    ensures ZonedDate(LocalMidnight(d, z), z) == d
  {
    ZonedDateUnique(LocalMidnight(d, z), z, d);
  }

  /** Re-encoding the decoded date of t gives the local midnight at or before t, so
      decode-then-encode only drops the time of day. */
  lemma DecodeEncode(t: Instant, z: Zone)
    ensures 0 <= t - LocalMidnight(ZonedDate(t, z), z) < MsPerDay
  {
  }

  /** Text of a year: four zero-padded digits inside 0000..9999 (RFC 3339 date-fullyear),
      a signed decimal outside it. */
  function YearText(y: int): (s: string)
    ensures 0 <= y <= 9999 ==> |s| == 4 && AllDigits(s) && Num4(s) == y
  {
    if 0 <= y <= 9999 then Pad4(y)
    else if y < 0 then "-" + Decimal(-y)
    else "+" + Decimal(y)
  }

  /** `yyyy-MM-dd` text of a date. */
  function FormatFullDate(d: Date): (s: string)
    requires ValidDate(d)
    ensures 0 <= d.year <= 9999 ==> |s| == 10 && s[4] == '-' && s[7] == '-'
  {
    YearText(d.year) + "-" + Pad2(d.month) + "-" + Pad2(d.day)
  }

  /** Reads an RFC 3339 full-date: four year digits, two month digits in 01..12 and two
      day digits within the month's length, separated by hyphens. */
  function ParseFullDate(s: string): (r: Option<Date>)
    ensures r.Some? ==> ValidDate(r.value) && 0 <= r.value.year <= 9999
    ensures r.Some? ==> |s| == 10
  {
    if |s| == 10 && s[4] == '-' && s[7] == '-'
       && AllDigits(s[0..4]) && AllDigits(s[5..7]) && AllDigits(s[8..10]) then
      var d := Date(Num4(s[0..4]), Num2(s[5..7]), Num2(s[8..10]));
      if ValidDate(d) then Some(d) else None
    else None
  }

  /** Parsing the text of a four-digit-year date gives the date back. */
  lemma FormatParse(d: Date)
    requires ValidDate(d) && 0 <= d.year <= 9999
    ensures ParseFullDate(FormatFullDate(d)) == Some(d)
  {
    var s := FormatFullDate(d);
    assert s[0..4] == Pad4(d.year);
    assert s[5..7] == Pad2(d.month);
    assert s[8..10] == Pad2(d.day);
  }

  /** Any text that parses is exactly the text of the date it parses to. */
  lemma ParseFormat(s: string)
    requires ParseFullDate(s).Some?
    ensures FormatFullDate(ParseFullDate(s).value) == s
  {
    var d := ParseFullDate(s).value;
    Num4RoundTrip(s[0..4]);
    Num2RoundTrip(s[5..7]);
    Num2RoundTrip(s[8..10]);
    assert s == s[0..4] + "-" + s[5..7] + "-" + s[8..10];
  }

  /** For years 0000..9999 two dates have the same text exactly when they are equal. */
  lemma FormatInjective(a: Date, b: Date)
    requires ValidDate(a) && 0 <= a.year <= 9999
    requires ValidDate(b) && 0 <= b.year <= 9999
    ensures FormatFullDate(a) == FormatFullDate(b) <==> a == b
  {
    FormatParse(a);
    FormatParse(b);
  }

  /** `format(toZonedTime(t, z), 'yyyy-MM-dd', { timeZone: z })`: the day key every view
      compares. */
  function DayKey(t: Instant, z: Zone): string {
    FormatFullDate(ZonedDate(t, z))
  }

  /** Comparing day keys is comparing zoned dates, while the years have four digits. */
  lemma DayKeyMatchesDate(a: Instant, b: Instant, z: Zone)
    requires 0 <= ZonedDate(a, z).year <= 9999 && 0 <= ZonedDate(b, z).year <= 9999
    ensures DayKey(a, z) == DayKey(b, z) <==> ZonedDate(a, z) == ZonedDate(b, z)
  {
    FormatInjective(ZonedDate(a, z), ZonedDate(b, z));
  }

  datatype DateError = InvalidDate

  /** The date rewrite of the submit handler: the form's `YYYY-MM-DD` text becomes the instant
      of local midnight on that day in zone z. Only the RFC 3339 full-date form is accepted;
      any other text is InvalidDate. The form's required date input only ever yields a valid
      full-date, so that path is not reached from the form. */
  function EncodeFormDate(s: string, z: Zone): (r: Result<Instant, DateError>)
    ensures r.Ok? <==> ParseFullDate(s).Some?
    ensures r.Ok? ==> ZonedDate(r.value, z) == ParseFullDate(s).value
    ensures r.Ok? ==> r.value == LocalMidnight(ZonedDate(r.value, z), z)
  {
    var p := ParseFullDate(s);
    if p.None? then Err(InvalidDate)
    else
      MidnightRoundTrip(p.value, z);
      Ok(LocalMidnight(p.value, z))
  }

  /** Encoding a form date and decoding it to `yyyy-MM-dd` in the same zone gives the
      submitted text back. */
  lemma FormDateRoundTrip(s: string, z: Zone)
    requires EncodeFormDate(s, z).Ok?
    ensures DayKey(EncodeFormDate(s, z).value, z) == s
  {
    ParseFormat(s);
  }

  /** An instant stored as 2025-03-01T00:00:00Z is shown on 2025-02-28 at UTC-8. */
  lemma LosAngelesScenario()
    ensures ZonedDate(LocalMidnight(Date(2025, 3, 1), Utc), Zone(-480)) == Date(2025, 2, 28)
  {
    ZonedDateUnique(LocalMidnight(Date(2025, 3, 1), Utc), Zone(-480), Date(2025, 2, 28));
  }
}
