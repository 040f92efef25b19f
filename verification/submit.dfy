/** Submitting the event form. The page's handler turns the form's `yyyy-MM-dd` into the instant
    of local midnight in the selected zone, sends a create (new form) or an update (edit form),
    and closes the modal once the store call succeeds. The modal's own submit handler closes the
    modal as soon as the request has been started, whatever its outcome. */
module Submit {
  import opened Wrappers
  import opened DateCodec
  import opened Records
  import opened EventModal
  import EC = EventController
  import Ctx = EventContext
  import Sync

  /** The request the handler sends. */
  datatype StoreCall = CreateCall(body: EventInput) | UpdateCall(id: EventId, patch: EventPatch)

  /** How a submit ends: the date text could not be encoded (nothing is sent), or the store call
      was rejected and its error escapes the handler. */
  datatype SubmitError = BadDate | StoreFailed

  /** The form's date as sent: an empty text is passed on as absent, any other text becomes
      local midnight of that day in the zone. */
  function SubmittedDate(text: string, z: Zone): (r: Result<Option<Instant>, DateError>)
    ensures r.Err? <==> text != "" && ParseFullDate(text).None?
    ensures text == "" ==> r == Ok(None)
    ensures r.Ok? && text != "" ==> r.value.Some? && DayKey(r.value.value, z) == text
    ensures r.Ok? && text != "" ==> r.value.value == LocalMidnight(ParseFullDate(text).value, z)
  {
    if text == "" then Ok(None)
    else
      var e := EncodeFormDate(text, z);
      if e.Err? then Err(e.error)
      else
        FormDateRoundTrip(text, z);
        Ok(Some(e.value))
  }

  /** The request for a form: a create when nothing is being edited, otherwise an update of the
      edited event that also sends back its owner and completion unchanged. */
  function PrepareCall(editing: Option<Event>, f: Draft, z: Zone): (r: Result<StoreCall, DateError>)
    ensures r.Err? <==> f.date != "" && ParseFullDate(f.date).None?
    ensures r.Ok? ==> (r.value.CreateCall? <==> editing.None?)
    ensures r.Ok? && editing.Some? ==> r.value.id == editing.value.id
    ensures r.Ok? && editing.Some? ==>
      r.value.patch.user == Some(editing.value.user) && r.value.patch.completed == Some(editing.value.completed)
  {
    var d := SubmittedDate(f.date, z);
    if d.Err? then Err(d.error)
    else if editing.None? then
      Ok(CreateCall(EventInput(Some(f.title), Some(f.category), Some(PriorityName(f.priority)),
                               d.value, Some(f.time), Some(f.description))))
    else
      var e := editing.value;
      Ok(UpdateCall(e.id, EventPatch(Some(e.user), Some(f.title), Some(f.category), Some(f.priority),
                                     d.value, Some(f.time), Some(f.description), Some(e.completed))))
  }

  /** App's handleSubmit, with the store call already answered by `resp`. */
  function AppSubmit(st: Ctx.ClientState, f: Draft, z: Zone, resp: Ctx.Response<Event>)
    : (r: (Ctx.ClientState, Option<StoreCall>, Result<(), SubmitError>))
    ensures r.1.None? <==> r.2 == Err(BadDate)
    ensures r.2 == Err(BadDate) <==> f.date != "" && ParseFullDate(f.date).None?
    ensures r.2 == Err(BadDate) ==> r.0 == st
    ensures r.2.Ok? <==> r.1.Some? && resp.Received?
    ensures r.2.Ok? ==> !r.0.modalOpen && r.0.editing.None?
    ensures resp.Failed? ==> r.0 == st
    ensures r.2.Ok? && st.editing.None? ==> r.0.events == st.events + [resp.data]
    ensures r.2.Ok? && st.editing.Some? ==> r.0.events == Ctx.ReplaceById(st.events, st.editing.value.id, resp.data)
  {
    var c := PrepareCall(st.editing, f, z);
    if c.Err? then (st, None, Err(BadDate))
    else
      var out := if c.value.CreateCall? then Ctx.CreateEvent(st, resp) else Ctx.UpdateEvent(st, c.value.id, resp);
      if out.1.Err? then (out.0, Some(c.value), Err(StoreFailed))
      else (Ctx.CloseModal(out.0), Some(c.value), Ok(()))
  }

  /** The modal's handleSubmit: the page's handler is started and the modal is closed without
      waiting for it. Closing touches only the modal fields and the store call only the list,
      so the order in which the two land does not matter. */
  function ModalSubmit(st: Ctx.ClientState, f: Draft, z: Zone, resp: Ctx.Response<Event>)
    : (r: (Ctx.ClientState, Option<StoreCall>, Result<(), SubmitError>))
    ensures !r.0.modalOpen && r.0.editing.None?
    ensures r.0.loading == st.loading
    ensures r.2.Ok? <==> AppSubmit(st, f, z, resp).2.Ok?
    ensures r.0.events == AppSubmit(st, f, z, resp).0.events
    ensures resp.Failed? ==> r.0.events == st.events && r.2 != Ok(())
  {
    var a := AppSubmit(st, f, z, resp);
    (Ctx.CloseModal(a.0), a.1, a.2)
  }

  /** The server's handling of a call made by `user`. */
  function Serve(s: EC.EventStore, user: UserId, c: StoreCall, now: Instant): (r: (EC.EventStore, EC.Answer<Event>))
    requires EC.GoodStore(s)
    ensures EC.GoodStore(r.0)
  {
    match c
    case CreateCall(body) => EC.CreateEvent(s, user, body, now)
    case UpdateCall(id, patch) => EC.UpdateEvent(s, Some(user), id, patch, now)
  }

  /** A new form with a title, a category and a date is stored, and opening the stored event
      for editing in the same zone shows the form exactly as it was submitted. */
  lemma CreateStoresForm(s: EC.EventStore, user: UserId, f: Draft, z: Zone, now: Instant)
    requires EC.GoodStore(s)
    requires f.title != "" && f.category != "" && ParseFullDate(f.date).Some?
    ensures PrepareCall(None, f, z).Ok? && PrepareCall(None, f, z).value.CreateCall?
    ensures var r := Serve(s, user, PrepareCall(None, f, z).value, now);
      r.1.Json? && r.1.body.user == user && EditForm(r.1.body, z) == f
  {
    var c := PrepareCall(None, f, z).value;
    var r := Serve(s, user, c, now);
    var e := r.1.body;
    PriorityNameRoundTrip(f.priority);
    PriorityNameRoundTrip(e.priority);
    assert e.priority == f.priority;
  }

  /** An edit of one's own event with a date is stored as edited, and reopening it in the same
      zone shows the submitted form; the owner stays the same. */
  lemma UpdateStoresForm(s: EC.EventStore, user: UserId, e: Event, f: Draft, z: Zone, now: Instant)
    requires EC.GoodStore(s)
    requires e.id in s.events && s.events[e.id].user == user && e.user == user
    requires ParseFullDate(f.date).Some?
    ensures PrepareCall(Some(e), f, z).Ok? && PrepareCall(Some(e), f, z).value.UpdateCall?
    ensures var r := Serve(s, user, PrepareCall(Some(e), f, z).value, now);
      r.1.Json? && r.1.body.id == e.id && r.1.body.user == user && EditForm(r.1.body, z) == f
  {
  }

  /** Submitting from a client that mirrors the server keeps it mirroring the server, whether
      the call is accepted or refused, as long as what is edited comes from the client's list. */
  lemma SubmitKeepsMirror(st: Ctx.ClientState, s: EC.EventStore, user: UserId, f: Draft, z: Zone, now: Instant)
    requires EC.GoodStore(s) && Sync.Mirrors(st, s, user)
    requires st.editing.Some? ==> st.editing.value in st.events
    ensures var c := PrepareCall(st.editing, f, z);
      c.Ok? ==>
        var r := Serve(s, user, c.value, now);
        Sync.Mirrors(ModalSubmit(st, f, z, Sync.Deliver(r.1)).0, r.0, user)
  {
    var c := PrepareCall(st.editing, f, z);
    if c.Ok? {
      match c.value
      case CreateCall(body) =>
        Sync.CreateKeepsMirror(st, s, user, body, now);
      case UpdateCall(id, patch) =>
        Sync.UpdateKeepsMirror(st, s, user, id, patch, now);
    }
  }
}
