/** The client's event list and modal state, and how each awaited store request reconciles
    the list with the response. Requests are taken as already answered: `Received` is the
    response data, `Failed` is a rejected request. */
module EventContext {
  import opened Wrappers
  import opened Records
  import opened Seqs

  datatype Response<T> = Received(data: T) | Failed

  /** The error a failed create or update rethrows to its caller. */
  datatype Thrown = RequestFailed

  datatype ClientState = ClientState(
    events: seq<Event>,
    loading: bool,
    modalOpen: bool,
    editing: Option<Event>)

  const InitialState: ClientState := ClientState([], true, false, None)

  /** getEvents: the fetched list replaces the local one and loading ends; a failure is
      logged and changes nothing. */
  function GetEvents(st: ClientState, resp: Response<seq<Event>>): (r: ClientState)
    ensures resp.Received? ==> r.events == resp.data && !r.loading
    ensures resp.Failed? ==> r == st
    ensures r.modalOpen == st.modalOpen && r.editing == st.editing
  {
    match resp
    case Received(data) => st.(events := data, loading := false)
    case Failed => st
  }

  /** createEvent: the created event is appended; a failure leaves the list alone and is
      rethrown. */
  function CreateEvent(st: ClientState, resp: Response<Event>): (r: (ClientState, Result<Event, Thrown>))
    ensures resp.Received? ==> |r.0.events| == |st.events| + 1
    ensures resp.Received? ==> r.0.events[..|st.events|] == st.events && r.0.events[|st.events|] == resp.data
    ensures resp.Received? ==> r.1 == Ok(resp.data)
    ensures resp.Failed? ==> r.0 == st && r.1 == Err(RequestFailed)
    ensures r.0 == st.(events := r.0.events)
  {
    match resp
    case Received(data) => (st.(events := st.events + [data]), Ok(data))
    case Failed => (st, Err(RequestFailed))
  }

  /** `events.map(e => e._id === id ? data : e)`. */
  function ReplaceById(events: seq<Event>, id: EventId, data: Event): (r: seq<Event>)
    ensures |r| == |events|
    ensures forall i :: 0 <= i < |r| && events[i].id != id ==> r[i] == events[i]
    ensures forall i :: 0 <= i < |r| && events[i].id == id ==> r[i] == data
  {
    seq(|events|, i requires 0 <= i < |events| => if events[i].id == id then data else events[i])
  }

  lemma ReplaceByIdAppend(a: seq<Event>, b: seq<Event>, id: EventId, data: Event)
    ensures ReplaceById(a + b, id, data) == ReplaceById(a, id, data) + ReplaceById(b, id, data)
  {
  }

  /** Replacing in a list that has no element with that id changes nothing. */
  lemma ReplaceAbsent(events: seq<Event>, id: EventId, data: Event)
    requires forall i :: 0 <= i < |events| ==> events[i].id != id
    ensures ReplaceById(events, id, data) == events
  {
  }

  /** updateEvent: the elements with that id become the returned event; a failure leaves
      the list alone and is rethrown. */
  function UpdateEvent(st: ClientState, id: EventId, resp: Response<Event>): (r: (ClientState, Result<Event, Thrown>))
    ensures resp.Received? ==> r.0.events == ReplaceById(st.events, id, resp.data) && r.1 == Ok(resp.data)
    ensures resp.Failed? ==> r.0 == st && r.1 == Err(RequestFailed)
    ensures r.0 == st.(events := r.0.events)
  {
    match resp
    case Received(data) => (st.(events := ReplaceById(st.events, id, data)), Ok(data))
    case Failed => (st, Err(RequestFailed))
  }

  /** `events.filter(e => e._id !== id)`. */
  function RemoveById(events: seq<Event>, id: EventId): (r: seq<Event>)
    ensures forall e :: e in r <==> e in events && e.id != id
  {
    Filter(events, (e: Event) => e.id != id)
  }

  /** deleteEvent: the elements with that id are dropped, the rest keep their order; a failure
      is logged and swallowed. */
  function DeleteEvent(st: ClientState, id: EventId, resp: Response<EventId>): (r: ClientState)
    ensures resp.Received? ==> r.events == RemoveById(st.events, id)
    ensures resp.Failed? ==> r == st
    ensures r == st.(events := r.events)
  {
    match resp
    case Received(_) => st.(events := RemoveById(st.events, id))
    case Failed => st
  }

  /** Removing keeps the relative order: removing from a concatenation removes from each part. */
  lemma RemoveByIdAppend(a: seq<Event>, b: seq<Event>, id: EventId)
    ensures RemoveById(a + b, id) == RemoveById(a, id) + RemoveById(b, id)
  {
    FilterAppend(a, b, (e: Event) => e.id != id);
  }

  /** openModal(event = null). */
  function OpenModal(st: ClientState, e: Option<Event>): (r: ClientState)
    ensures r.modalOpen && r.editing == e
    ensures r.events == st.events && r.loading == st.loading
  {
    st.(editing := e, modalOpen := true)
  }

  function CloseModal(st: ClientState): (r: ClientState)
    ensures !r.modalOpen && r.editing.None?
    ensures r.events == st.events && r.loading == st.loading
  {
    st.(editing := None, modalOpen := false)
  }

  /** Closing after opening forgets what was opened. */
  lemma OpenThenClose(st: ClientState, e: Option<Event>)
    ensures CloseModal(OpenModal(st, e)) == CloseModal(st)
  {
  }
}
