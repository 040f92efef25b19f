/** The stored records: Event and Category documents with their schema rules (required
    paths, the priority enum, defaults and timestamps). */
module Records {
  import opened Wrappers
  import opened DateCodec

  type UserId = nat
  type EventId = nat
  type CategoryId = nat

  datatype Priority = High | Medium | Low

  function PriorityName(p: Priority): string {
    match p
    case High => "High"
    case Medium => "Medium"
    case Low => "Low"
  }

  /** The schema's priority enum: exactly "High", "Medium" and "Low" are accepted. */
  function ParsePriority(s: string): (r: Option<Priority>)
    ensures r.Some? <==> s == "High" || s == "Medium" || s == "Low"
    ensures r.Some? ==> PriorityName(r.value) == s
  {
    if s == "High" then Some(High)
    else if s == "Medium" then Some(Medium)
    else if s == "Low" then Some(Low)
    else None
  }

  lemma PriorityNameRoundTrip(p: Priority)
    ensures ParsePriority(PriorityName(p)) == Some(p)
  {
  }

  /** A stored event. An empty `time` or `description` stands for an absent one: every
      reader treats the two alike. */
  datatype Event = Event(
    id: EventId,
    user: UserId,
    title: string,
    category: string,
    priority: Priority,
    date: Instant,
    time: string,
    description: string,
    completed: bool,
    createdAt: Instant,
    updatedAt: Instant)

  /** The fields a create request passes to the model; None is an absent field. */
  datatype EventInput = EventInput(
    title: Option<string>,
    category: Option<string>,
    priority: Option<string>,
    date: Option<Instant>,
    time: Option<string>,
    description: Option<string>)

  /** Schema paths whose rule an input can break. */
  datatype EventPath = TitlePath | CategoryPath | PriorityPath | DatePath

  /** A required string is missing when it is absent or empty. */
  predicate MissingText(s: Option<string>) {
    s.None? || s.value == ""
  }

  /** The paths whose schema rule the input breaks. */
  function EventViolations(f: EventInput): (v: set<EventPath>)
    ensures TitlePath in v <==> MissingText(f.title)
    ensures CategoryPath in v <==> MissingText(f.category)
    ensures DatePath in v <==> f.date.None?
    ensures PriorityPath in v <==> f.priority.Some? && ParsePriority(f.priority.value).None?
  {
    (if MissingText(f.title) then {TitlePath} else {})
    + (if MissingText(f.category) then {CategoryPath} else {})
    + (if f.date.None? then {DatePath} else {})
    + (if f.priority.Some? && ParsePriority(f.priority.value).None? then {PriorityPath} else {})
  }

  /** Event.create: validates the input and builds the document with its defaults. */
  function BuildEvent(id: EventId, user: UserId, f: EventInput, now: Instant): (r: Result<Event, set<EventPath>>)
    ensures r.Err? <==> EventViolations(f) != {}
    ensures r.Err? ==> r.error == EventViolations(f)
    ensures r.Ok? ==> r.value.id == id && r.value.user == user
    ensures r.Ok? ==> r.value.title != "" && r.value.category != ""
    ensures r.Ok? ==> Some(r.value.title) == f.title && Some(r.value.category) == f.category
    ensures r.Ok? ==> Some(r.value.date) == f.date
    ensures r.Ok? && f.priority.None? ==> r.value.priority == Medium
    ensures r.Ok? && f.priority.Some? ==> PriorityName(r.value.priority) == f.priority.value
    ensures r.Ok? ==> r.value.time == f.time.GetOr("") && r.value.description == f.description.GetOr("")
    ensures r.Ok? ==> !r.value.completed
    ensures r.Ok? ==> r.value.createdAt == now && r.value.updatedAt == now
  {
    var v := EventViolations(f);
    if v != {} then Err(v)
    else
      assert TitlePath !in v && CategoryPath !in v && DatePath !in v && PriorityPath !in v;
      var priority := if f.priority.None? then Medium else ParsePriority(f.priority.value).value;
      Ok(Event(id, user, f.title.value, f.category.value, priority, f.date.value,
               f.time.GetOr(""), f.description.GetOr(""), false, now, now))
  }

  /** The fields an update request sets; None leaves a field as it is. The document's id and
      createdAt are not updatable. */
  datatype EventPatch = EventPatch(
    user: Option<UserId>,
    title: Option<string>,
    category: Option<string>,
    priority: Option<Priority>,
    date: Option<Instant>,
    time: Option<string>,
    description: Option<string>,
    completed: Option<bool>)

  const NoChange: EventPatch := EventPatch(None, None, None, None, None, None, None, None)

  /** findByIdAndUpdate with `new: true`: every field the patch carries replaces the stored
      one; the timestamps plugin moves updatedAt to now. No validator runs. */
  function ApplyPatch(e: Event, p: EventPatch, now: Instant): (r: Event)
    ensures r.id == e.id && r.createdAt == e.createdAt && r.updatedAt == now
    ensures p.user.Some? ==> r.user == p.user.value
    ensures p.user.None? ==> r.user == e.user
    ensures p.title.Some? ==> r.title == p.title.value
    ensures p.title.None? ==> r.title == e.title
    ensures p.date.Some? ==> r.date == p.date.value
    ensures p.date.None? ==> r.date == e.date
    ensures p.completed.Some? ==> r.completed == p.completed.value
    ensures p.completed.None? ==> r.completed == e.completed
    ensures r.category == p.category.GetOr(e.category) && r.priority == p.priority.GetOr(e.priority)
    ensures r.time == p.time.GetOr(e.time) && r.description == p.description.GetOr(e.description)
  {
    e.(user := p.user.GetOr(e.user),
       title := p.title.GetOr(e.title),
       category := p.category.GetOr(e.category),
       priority := p.priority.GetOr(e.priority),
       date := p.date.GetOr(e.date),
       time := p.time.GetOr(e.time),
       description := p.description.GetOr(e.description),
       completed := p.completed.GetOr(e.completed),
       updatedAt := now)
  }

  /** Applying a patch again changes nothing but the update time. */
  lemma PatchIdempotent(e: Event, p: EventPatch, t1: Instant, t2: Instant)
    ensures ApplyPatch(ApplyPatch(e, p, t1), p, t2) == ApplyPatch(e, p, t2)
  {
  }

  /** An empty patch only touches the update time. */
  lemma EmptyPatch(e: Event, now: Instant)
    ensures ApplyPatch(e, NoChange, now) == e.(updatedAt := now)
  {
  }

  /** A stored category. */
  datatype Category = Category(
    id: CategoryId,
    user: UserId,
    name: string,
    color: string,
    createdAt: Instant,
    updatedAt: Instant)

  const DefaultColor: string := "#000000"

  datatype CategoryPath = NamePath

  /** Category.create: the name is required, the colour defaults to black. */
  function BuildCategory(id: CategoryId, user: UserId, name: Option<string>, color: Option<string>, now: Instant)
    : (r: Result<Category, CategoryPath>)
    ensures r.Err? <==> MissingText(name)
    ensures r.Ok? ==> r.value.id == id && r.value.user == user && Some(r.value.name) == name
    ensures r.Ok? && color.None? ==> r.value.color == DefaultColor
    ensures r.Ok? && color.Some? ==> r.value.color == color.value
    ensures r.Ok? ==> r.value.createdAt == now && r.value.updatedAt == now
  {
    if MissingText(name) then Err(NamePath)
    else Ok(Category(id, user, name.value, color.GetOr(DefaultColor), now, now))
  }
}
