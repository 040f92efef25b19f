# TimeDesk scheduler — a Dafny model of its core

TimeDesk is a React and Express scheduler. Users keep events, each with a title, category,
priority, a calendar day (stored as an instant) and an optional `HH:MM` time. They see the
events on a dashboard, a daily table and a month calendar, and can export the last two to PDF.
This project models the parts of the program that carry logic and proves properties about them.

- **Date codec** (`civil.dfy`, `date_codec.dfy`):
  - Calendar dates are proleptic Gregorian, with the month lengths and leap-year rule of
    section 5.7 of RFC 3339, and are counted as Unix epoch days.
  - Instants are integer milliseconds. Timezones are fixed offsets in minutes.
  - The form's `yyyy-MM-dd` text (the `full-date` of section 5.6 of RFC 3339) becomes the
    instant of local midnight in the selected zone.
  - Every view decodes an instant back into its day in a zone.
  - The headline property is the round trip: decoding the encoded date in the same zone
    gives the same day and the same text.
- **Records and server** (`records.dfy`, `event_controller.dfy`, `category_controller.dfy`):
  - The Event and Category documents with their schema rules and defaults.
  - The event routes (list, create, update, delete) with the not-found and ownership checks.
  - The category routes (list, create), scoped to their owner.
  - Each collection is a map from id to document.
- **Client list** (`event_context.dfy`, `sync.dfy`):
  - How each answered request reconciles the client's list.
  - The modal's open/editing state.
  - A proof that fetch, create, update and delete keep the client's list equal to the
    server's list for that user.
- **Event form** (`clock.dfy`, `event_modal.dfy`, `submit.dfy`):
  - The 12-hour time picker: three selectors over one `HH:MM` value.
  - The new and edit forms.
  - The submit handler, which encodes the date and sends a create or an update.
  - Proofs that a submitted form is stored and read back unchanged.
- **Views** (`daily_table.dfy`, `dashboard.dfy`, `calendar.dfy`, `calendar_export.dfy`):
  - The daily table: today's bucket, its sort and the PDF rows.
  - The dashboard: filter, three-level order and counters.
  - The month grid on screen.
  - The month PDF: the fixed 6×7 grid, per-cell entries, colours and the detail table.

`wrappers.dfy`, `seqs.dfy` and `text.dfy` hold the shared building blocks: Option/Result,
order-preserving filter and count, a sort specified as "a permutation sorted by a total
preorder", string order, ASCII lower-casing, substring search and fixed-width digits.

Sorting is never modelled as the engine's algorithm: each view's sort is a permutation of its
input, sorted by a total preorder. The source comparators are modelled as written, and a lemma
per comparator states exactly where they agree with that preorder. They disagree only on two
untimed events that the earlier keys do not separate: the comparators answer 1 in both
directions, so nothing is claimed about the order of such events.

Some facts about the code that shape the model:
- The on-screen month grid has 4 to 6 whole weeks. Only the PDF grid always has 42 days.
- `category` is any non-empty string.
- The dashboard order between two untimed events that the earlier keys do not separate is
  whatever the sort makes of an inconsistent comparator, so the model leaves it open.
- The PDF detail table selects events by month number alone, read in the browser's zone (see
  Findings).
- The form's date input is required and of type `date`, so the submit handler only ever
  receives a valid full-date. The empty-date and `BadDate` paths of `Submit.SubmittedDate` and
  `Submit.AppSubmit` model what the handler would do, but the form cannot reach them.

## Model

| member | source | states |
|---|---|---|
| Civil.FromEpochDay | client/src/pages/Calendar.jsx:23-31 | the epoch day's calendar date is valid and maps back to the same epoch day |
| Civil.EpochDayRoundTrip | client/src/pages/Calendar.jsx:23-31 | converting a valid date to its epoch day and back gives the same date |
| Civil.EpochDayChronological | client/src/pages/Calendar.jsx:28-31 | epoch days order dates by year, then month, then day |
| DateCodec.LocalMidnight | client/src/App.jsx:35-36 | the instant at which the zone's wall clock reads 00:00 on the date: adding the offset lands on the start of the date's day |
| DateCodec.ZonedDate | client/src/components/EventModal.jsx:21 | the decoded date is valid and its local day in the zone contains the instant |
| DateCodec.ZonedDateUnique | client/src/pages/Calendar.jsx:224-227 | the decoded date is the only date whose local day contains the instant |
| DateCodec.ZonedDateWindow | client/src/pages/Calendar.jsx:224-227 | an instant decodes to a date exactly when it lies in that date's local day |
| DateCodec.MidnightRoundTrip | client/src/App.jsx:31-37 | decoding the local midnight of a date in the same zone gives the date back, with no off-by-one day |
| DateCodec.DecodeEncode | client/src/components/EventModal.jsx:21-22 | re-encoding an instant's decoded date drops only the time of day (less than one day) |
| DateCodec.FormatFullDate | client/src/components/EventModal.jsx:22 | for four-digit years the text has 10 characters with hyphens at positions 4 and 7 |
| DateCodec.ParseFullDate | client/src/App.jsx:35 | a text that parses has 10 characters and denotes a valid date with a four-digit year |
| DateCodec.FormatParse | client/src/components/EventModal.jsx:21-22 | parsing a formatted date gives the date back |
| DateCodec.ParseFormat | client/src/App.jsx:35-37 | formatting a parsed text gives the same text back |
| DateCodec.FormatInjective | client/src/pages/DailyTable.jsx:17 | two four-digit-year dates have the same text exactly when they are equal |
| DateCodec.DayKeyMatchesDate | client/src/pages/Dashboard.jsx:64 | comparing `yyyy-MM-dd` day keys is comparing zoned dates |
| DateCodec.EncodeFormDate | client/src/App.jsx:33-37 | a valid full-date becomes local midnight of that day in the zone; any other text is an error |
| DateCodec.FormDateRoundTrip | client/src/App.jsx:31-37 | the encoded form date, decoded to `yyyy-MM-dd` in the same zone, is the submitted text |
| DateCodec.LosAngelesScenario | client/src/components/EventModal.jsx:21-22 | the instant 2025-03-01T00:00Z falls on 2025-02-28 at UTC-8 |
| Records.ParsePriority | server/models/Event.js:17-21 | exactly High, Medium and Low are accepted, each as its own name |
| Records.PriorityNameRoundTrip | server/models/Event.js:17-21 | every priority's name parses back to it |
| Records.EventViolations | server/models/Event.js:3-35 | title, category and date are required (a required string must be non-empty); a given priority must be in the enum |
| Records.BuildEvent | server/models/Event.js:3-38 | creation fails exactly on a rule violation; otherwise fields are copied, priority defaults to Medium, completed is false, both timestamps are now |
| Records.ApplyPatch | server/controllers/eventController.js:56-58 | every field the body carries replaces the stored one and the others stay; id and createdAt are kept; updatedAt becomes now |
| Records.PatchIdempotent | server/controllers/eventController.js:56-58 | applying the same body twice equals applying it once |
| Records.EmptyPatch | server/controllers/eventController.js:56-58 | an empty body changes only updatedAt |
| Records.BuildCategory | server/models/Category.js:3-19 | the name is required; the owner and name are copied; the colour defaults to `#000000`; both timestamps are now |
| EventController.ListEvents | server/controllers/eventController.js:6-9 | the list holds exactly the requester's stored events, in id order |
| EventController.CreateEvent | server/controllers/eventController.js:14-31 | a missing or empty title gives 400 and stores nothing; success stores one new event under the next id, which is the event the schema builds from the body: owned by the requester, with the body's title, date, category, time and description, priority defaulting to Medium, incomplete, created and updated now |
| EventController.Guard | server/controllers/eventController.js:37-54 | in order: an unknown id gives 400 "Event not found", no user gives 401 "User not found", a non-owner gives 401 "User not authorized"; it passes iff the requester owns the event |
| EventController.UpdateEvent | server/controllers/eventController.js:36-61 | a refused request leaves the store unchanged; the owner's update stores and returns the patched event and changes nothing else |
| EventController.DeleteEvent | server/controllers/eventController.js:66-89 | a refused request leaves the store unchanged; the owner's delete removes only that id and answers with it |
| EventController.NonOwnerCannotChange | server/controllers/eventController.js:50-54 | a non-owner's update or delete is refused with 401 and leaves the store as it was |
| CategoryController.ListCategories | server/controllers/categoryController.js:6-9 | the list holds exactly the requester's stored categories |
| CategoryController.CreateCategory | server/controllers/categoryController.js:14-27 | a missing or empty name gives 400 and stores nothing; otherwise one new category is stored under a fresh id, owned by the requester, with the name and the colour or the default |
| CategoryController.CreatedCategoryIsPrivate | server/controllers/categoryController.js:20-24 | a category created by one user leaves every other user's list unchanged |
| EventContext.GetEvents | client/src/context/EventContext.jsx:16-30 | a response replaces the list and ends loading; a failure changes nothing |
| EventContext.CreateEvent | client/src/context/EventContext.jsx:32-47 | the created event is appended with the earlier ones kept in order; a failure leaves the state and rethrows |
| EventContext.ReplaceById | client/src/context/EventContext.jsx:58 | same length; elements with the id become the new event, all others stay in place |
| EventContext.ReplaceAbsent | client/src/context/EventContext.jsx:58 | replacing an id absent from the list changes nothing |
| EventContext.UpdateEvent | client/src/context/EventContext.jsx:49-64 | a response replaces the elements with that id; a failure leaves the state and rethrows |
| EventContext.RemoveById | client/src/context/EventContext.jsx:75 | an element survives iff it was present and has a different id |
| EventContext.RemoveByIdAppend | client/src/context/EventContext.jsx:75 | removing from a concatenation removes from each part, so the survivors keep their relative order |
| EventContext.DeleteEvent | client/src/context/EventContext.jsx:66-79 | a response removes the elements with that id; a failure is swallowed and changes nothing |
| EventContext.OpenModal | client/src/context/EventContext.jsx:81-84 | the modal is open on the given event (or none); the list is untouched |
| EventContext.CloseModal | client/src/context/EventContext.jsx:86-89 | the modal is closed with nothing being edited; the list is untouched |
| EventContext.OpenThenClose | client/src/context/EventContext.jsx:81-89 | closing after opening forgets what was opened |
| Sync.FetchMirrors | client/src/context/EventContext.jsx:24-26 | after a fetch the client's list equals the server's list for the user |
| Sync.CreateKeepsMirror | client/src/context/EventContext.jsx:40-41 | a create, accepted or refused, keeps the client's list equal to the server's |
| Sync.UpdateKeepsMirror | client/src/context/EventContext.jsx:57-58 | an update that keeps the owner keeps the client's list equal to the server's |
| Sync.DeleteKeepsMirror | client/src/context/EventContext.jsx:74-75 | a delete, accepted or refused, keeps the client's list equal to the server's |
| Clock.MinuteOfDay | client/src/components/EventModal.jsx:141 | a time's minute of the day splits back into its hour and minute |
| Clock.MinuteOfDayInjective | client/src/components/EventModal.jsx:141 | two well-formed times are equal iff they are the same minute of the day |
| Clock.DialHour | client/src/components/EventModal.jsx:139-144 | the dial hour is in 1..12 and agrees with the hour modulo 12 |
| Clock.DialRoundTrip | client/src/components/EventModal.jsx:148-151 | the dial hour and half of a 24-hour hour convert back to it |
| Clock.To24RoundTrip | client/src/components/EventModal.jsx:148-151 | a dial hour and half converted to 24 hours read back as the same dial hour and half |
| Clock.LocaleCompare | client/src/pages/Dashboard.jsx:46 | zero iff equal, negative iff strictly before in text order, positive iff strictly after |
| Clock.TimeLeChronological | client/src/pages/Dashboard.jsx:46 | for two set `HH:MM` times, text order is the order in the day |
| Clock.TimeCmpAgrees | client/src/pages/Dashboard.jsx:44-46 | the time tie-break follows "timed first, then by text" except for two untimed events, which it reports as each after the other |
| Clock.ShownTime | client/src/pages/Dashboard.jsx:49-55 | no time gives the placeholder; a time gives an `h:mm a` text, exactly the time's own when the browser's zone is the selected one |
| Clock.ShiftedMinute | client/src/pages/Dashboard.jsx:52-54 | the minute shown in the selected zone is a minute of the day, differs from the browser's by the offset difference modulo a day, and equals it when the zones are the same |
| Clock.ShownTimeShiftScenario | client/src/pages/Dashboard.jsx:52-54 | 09:00 entered with the browser on UTC shows as 4:00 AM with UTC-5 selected |
| EventModal.DisplayHour | client/src/components/EventModal.jsx:139-144 | the hour shown is in 1..12: 12 for no time, otherwise the hour modulo 12 with 0 shown as 12 |
| EventModal.DisplayMinute | client/src/components/EventModal.jsx:167 | the minute shown is two digits: `00` for no time, otherwise the time's minute |
| EventModal.DisplayHalf | client/src/components/EventModal.jsx:186-189 | PM is shown iff a time is set with hour 12 or more |
| EventModal.Current | client/src/components/EventModal.jsx:146 | the handlers' starting value is always a well-formed time |
| EventModal.ChooseHour | client/src/components/EventModal.jsx:145-153 | picking a dial hour yields a well-formed time that shows that hour, keeps the minute and stays in the current half |
| EventModal.FirstHourPickIsPm | client/src/components/EventModal.jsx:146-151 | on an empty time AM is shown, yet the first hour picked lands in PM |
| EventModal.ChooseMinute | client/src/components/EventModal.jsx:168-172 | picking a minute keeps the hour text verbatim and shows the new minute |
| EventModal.ChooseHalf | client/src/components/EventModal.jsx:190-198 | picking a half shows it and keeps the shown hour and minute; re-picking the shown half of a set time changes nothing |
| EventModal.DisplayDetermines | client/src/components/EventModal.jsx:139-189 | two set times that show the same hour, minute and half are equal |
| EventModal.HalfToggleRestores | client/src/components/EventModal.jsx:190-198 | switching to the other half and back restores a set time |
| EventModal.ShownTimeMatchesPicker | client/src/pages/Dashboard.jsx:49-55 | with the browser on the selected zone, the list shows the time as the three selectors do |
| EventModal.NewForm | client/src/components/EventModal.jsx:24-35 | a new form has empty title, time and description, category Work, priority Medium, and today's date in the zone |
| EventModal.EditForm | client/src/components/EventModal.jsx:19-23 | an edit form copies the event's fields, with the date replaced by its zoned `yyyy-MM-dd` |
| EventModal.EditFormKeepsDate | client/src/components/EventModal.jsx:19-23 | saving an untouched edit form re-encodes the date as local midnight of the same day, so a midnight date is unchanged |
| Submit.SubmittedDate | client/src/App.jsx:33-38 | an empty date is passed on as absent; a valid one becomes local midnight, whose day key is the text; anything else is an error |
| Submit.PrepareCall | client/src/App.jsx:40-44 | a create iff nothing is edited; otherwise an update of the edited id that sends the owner and completion back unchanged |
| Submit.AppSubmit | client/src/App.jsx:30-46 | a bad date sends nothing; the modal is closed only when the store call succeeded; the list gains the created event or has the edited one replaced; a failure leaves the state |
| Submit.ModalSubmit | client/src/components/EventModal.jsx:43-47 | the modal always closes; the list changes exactly as the page's handler changes it |
| Submit.CreateStoresForm | client/src/App.jsx:30-46 | a complete new form is stored for the user, and opening the stored event shows the same form |
| Submit.UpdateStoresForm | client/src/App.jsx:40-41 | an edit of one's own event is stored with the same owner, and reopening it shows the submitted form |
| Submit.SubmitKeepsMirror | client/src/App.jsx:30-46 | a submit from a client mirroring the server keeps it mirroring the server |
| DailyTable.Toggle | client/src/pages/DailyTable.jsx:85 | the switch always changes the mode |
| DailyTable.ToggleTwice | client/src/pages/DailyTable.jsx:85 | switching twice restores the mode |
| DailyTable.RankOrder | client/src/pages/DailyTable.jsx:20 | ranks tell priorities apart, with High above Medium above Low |
| DailyTable.OnDayIsSameDate | client/src/pages/DailyTable.jsx:15-17 | comparing day keys is comparing the zoned days |
| DailyTable.OnDayWindow | client/src/pages/DailyTable.jsx:15-17 | an event is in today's bucket iff its instant falls in today's local day |
| DailyTable.OrderIsPreorder | client/src/pages/DailyTable.jsx:18-28 | the table order is total and transitive in both modes |
| DailyTable.TableCmpAgrees | client/src/pages/DailyTable.jsx:18-28 | the comparator follows the table order except for two untimed rows the mode does not separate |
| DailyTable.TodayEvents | client/src/pages/DailyTable.jsx:14-28 | the rows are a permutation of exactly the events whose day key is today's, sorted by the mode's order |
| DailyTable.TodayOrder | client/src/pages/DailyTable.jsx:19-27 | in priority mode ranks never rise down the table; among rows not separated by the mode, timed rows come first, earliest first |
| DailyTable.PdfRow | client/src/pages/DailyTable.jsx:46-52 | five columns; the time is `-` iff there is none; the title, category and priority are the event's; the status is Completed iff completed, else Pending |
| DailyTable.PdfRows | client/src/pages/DailyTable.jsx:46-52 | one row per table event, in the table's order |
| Dashboard.SearchIgnoresCase | client/src/pages/Dashboard.jsx:27 | lower-casing the search text does not change which events match |
| Dashboard.ListLeIsPreorder | client/src/pages/Dashboard.jsx:30-47 | the dashboard order is total and transitive |
| Dashboard.ListCmpAgrees | client/src/pages/Dashboard.jsx:30-47 | the comparator follows the dashboard order except for two untimed events with equal status and instant |
| Dashboard.Visible | client/src/pages/Dashboard.jsx:26-47 | the list is a permutation of exactly the matching events, sorted by the dashboard order |
| Dashboard.VisibleOrder | client/src/pages/Dashboard.jsx:31-46 | incomplete events come before completed ones; each group ascends by instant; on one instant timed events come first, in `HH:MM` order |
| Dashboard.ShowEverything | client/src/pages/Dashboard.jsx:27-28 | an empty search with All shows every event |
| Dashboard.TimeLabel | client/src/pages/Dashboard.jsx:49-50 | the label is empty iff the event has no time |
| Dashboard.CompletedOrPending | client/src/pages/Dashboard.jsx:59-60 | completed and pending counts add up to the number of events |
| Dashboard.ComputeStats | client/src/pages/Dashboard.jsx:57-65 | completed + remaining = total, remaining counts pending events, and the today count is the size of the daily table's bucket |
| Calendar.OpenView | client/src/pages/Calendar.jsx:14 | the calendar opens on a valid month whose days contain now, read in the selected zone |
| Calendar.OpenViewShowsToday | client/src/pages/Calendar.jsx:14-31 | the opening month's grid has a cell inside the month, marked today, for today's date in the selected zone |
| Calendar.NextMonth | client/src/pages/Calendar.jsx:19 | the next month starts the day after this one ends |
| Calendar.PrevMonth | client/src/pages/Calendar.jsx:20 | the previous month ends the day before this one starts |
| Calendar.NavigationInverse | client/src/pages/Calendar.jsx:19-20 | forward then back, and back then forward, return to the same month |
| Calendar.DayOfMonth | client/src/pages/Calendar.jsx:23-24 | an epoch day lies in a month iff it is within the month's first day and length, and its day number is its offset + 1 |
| Calendar.GridStart | client/src/pages/Calendar.jsx:25 | the grid starts on the Sunday on or before the 1st |
| Calendar.GridEnd | client/src/pages/Calendar.jsx:26 | the grid ends on the Saturday on or after the month's last day |
| Calendar.UiDays | client/src/pages/Calendar.jsx:23-31 | consecutive days from that Sunday, whole weeks, 28 to 42 of them, covering the month |
| Calendar.Cell | client/src/pages/Calendar.jsx:224-229 | the cell holds exactly the events whose instant falls in its local day; it is in the month iff the day is; it is today iff now falls in its local day |
| Calendar.MonthCells | client/src/pages/Calendar.jsx:223-229 | one cell per grid day, in grid order |
| Calendar.EventShownOnce | client/src/pages/Calendar.jsx:224-228 | an event of the month shown appears in exactly one cell, and that cell is in the month |
| Calendar.EventInItsCell | client/src/pages/Calendar.jsx:224-228 | an event of the month shown is in the cell of its local day, at its offset from the grid's Sunday |
| Calendar.EventInOneCell | client/src/pages/Calendar.jsx:224-228 | no event is in two cells of the grid |
| CalendarExport.PdfDays | client/src/pages/Calendar.jsx:75-85 | 42 consecutive days from the on-screen grid's Sunday; the on-screen grid is a prefix |
| CalendarExport.MonthNumberSuffices | client/src/pages/Calendar.jsx:93 | within the 42 days, a matching month number implies a matching year |
| CalendarExport.PriorityColour | client/src/pages/Calendar.jsx:104-107 | High is red (239,68,68), Medium orange (249,115,22), Low blue (59,130,246) |
| CalendarExport.ColoursDistinct | client/src/pages/Calendar.jsx:104-107 | the colour tells the three priorities apart |
| CalendarExport.Entry | client/src/pages/Calendar.jsx:104-116 | an entry has the priority's colour and a title of at most 18 characters, unchanged when it is 15 or shorter |
| CalendarExport.PdfCellFor | client/src/pages/Calendar.jsx:93-125 | the first min(n, 4) of the day's n events in list order; "+ more" iff n > 4, with shown + more = n; in-month iff the month number matches |
| CalendarExport.PdfGrid | client/src/pages/Calendar.jsx:84-128 | 42 cells, one per export day, in order |
| CalendarExport.PdfInMonthExact | client/src/pages/Calendar.jsx:93 | a PDF cell is marked as in the month exactly when its day is in the exported month |
| CalendarExport.DetailEventsAsWritten | client/src/pages/Calendar.jsx:138-140 | the detail table as written: a permutation of the events whose month number matches in any year, ascending by instant |
| CalendarExport.OtherYearListed | client/src/pages/Calendar.jsx:139 | an event of March 2024 is listed in the details of March 2025 |
| CalendarExport.DetailEvents | client/src/pages/Calendar.jsx:138-140 | a permutation of exactly the events of the exported year and month, ascending by instant |
| CalendarExport.GridEventsListed | client/src/pages/Calendar.jsx:99-139 | every event drawn in an in-month PDF cell is listed in the detail table |
| CalendarExport.MonthDay | client/src/pages/Calendar.jsx:142 | `MMM dd`: the month's abbreviation, a space and the two-digit day |
| CalendarExport.MonthDayInjective | client/src/pages/Calendar.jsx:142 | two labels are equal iff the month and the day are equal |
| CalendarExport.DetailRow | client/src/pages/Calendar.jsx:141-148 | six columns: date label, time or `-`, title, category, priority, description or `-` |
| CalendarExport.DetailRows | client/src/pages/Calendar.jsx:141-148 | one row per event given, each that event's row, in the order given |
| Text.TruncateTitle | client/src/pages/Calendar.jsx:115 | titles over 15 characters become their first 15 + `...` (length 18); shorter ones are unchanged |
| Text.TruncateIdempotent | client/src/pages/Calendar.jsx:115 | truncating twice is truncating once |
| Text.Contains | client/src/pages/Dashboard.jsx:27 | true iff the needle occurs at some position of the text |
| Text.LowerIdempotent | client/src/pages/Dashboard.jsx:27 | lower-casing twice is lower-casing once |

## Left out

- Daylight saving time and the IANA zone database: zones are fixed UTC offsets. The date-fns-tz and Intl calls are foreign code.
- The clock: "now" is a parameter wherever the source calls `new Date()`.
- The browser's own zone is a parameter (`browser`). It is used by the PDF month export and by the 12-hour time rendering, both of which read local browser time.
- Network, axios, JWT and auth middleware: the requester's id is a parameter. Each request is modelled as already answered.
- EventController.ListEvents, EventController.CreateEvent, CategoryController.ListCategories, CategoryController.CreateCategory: the requester is a plain user id. With no user attached the source reads `req.user.id` and throws, so the request is never answered; that case is not modelled. Only Guard, UpdateEvent and DeleteEvent take an optional requester.
- DateCodec.EncodeFormDate: only the RFC 3339 full-date form is accepted. Other ISO 8601 forms that the date library would also read, such as `20250301` or `2025-060`, are modelled as `InvalidDate`; the form's date input never produces them.
- Mongoose internals: ids are a natural-number counter, so list order is id order, which stands for insertion order.
- The ISO transport text of dates (`toISOString`) is not modelled: instants are passed as integers.
- Years outside 0000..9999: `yyyy-MM-dd` is only round-tripped for four-digit years. date-fns' printing of other years is approximated.
- EventController.UpdateEvent: the update body is a typed patch (priority already one of the enum, no empty-title check). The source runs no validator on update and would store whatever the body carries.
- EventController.CreateEvent: a schema violation other than the title is answered with `Unanswered` and the paths broken. The source has no error handler, so the request is never answered.
- Submit.PrepareCall: the update body the source sends also carries the event's `_id`, `createdAt` and `updatedAt`. These are not modelled as updatable.
- Clock.ShownTime: the browser-zone shift is modelled as a fixed offset difference. The day that `setHours` picks and any DST change are not modelled.
- Clock.LocaleCompare: modelled as UTF-16 code-unit order. This equals the locale order on `HH:MM` texts but not on arbitrary text.
- Text.Lower: lower-cases ASCII only. Non-ASCII case mapping of `toLowerCase` is not modelled.
- Text.TruncateTitle: lengths are counted in characters of the string, which equal UTF-16 code units only outside surrogate pairs.
- Time fields are assumed empty or well-formed `HH:MM` (`TimeField`): the picker only produces these. A malformed time would make the date library throw.
- The order between two untimed events that the earlier keys do not separate is left unspecified, because the source comparators answer 1 in both directions.
- An empty date is modelled as absent. An event's `time` and `description` are empty strings when absent, because every reader treats the two alike.
- jsPDF and autoTable layout: coordinates, fonts, page titles, file names and `doc.save`. Only the data given to the document is modelled.
- JSX rendering, animation, Sidebar, Navbar, ActionMenu, Register, PDFExport.jsx and TimezoneContext.jsx: none of it carries stateable behaviour, or it is a thin wrapper over browser storage and Intl.

## Findings

| source | as written | input that shows it | evidently intended | confidence | as-written member | corrected member |
|---|---|---|---|---|---|---|
| client/src/pages/Calendar.jsx:139 | the detail table keeps events whose month number equals the exported month's, in any year | an event on 2024-03-10 appears in the details of a March 2025 export | events of the exported year and month only, as the grid cells mark them | not executed | CalendarExport.DetailEventsAsWritten | CalendarExport.DetailEvents |
