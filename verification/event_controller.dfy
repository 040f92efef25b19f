/** The event routes of the server: list, create, update and delete over the event
    collection, with the not-found and ownership checks. The collection is a map from id to
    document; ids are handed out in increasing order. */
module EventController {
  import opened Wrappers
  import opened DateCodec
  import opened Records

  datatype EventStore = EventStore(events: map<EventId, Event>, nextId: EventId)

  /** Every stored document sits under its own id, and every id is below the next one. */
  predicate GoodStore(s: EventStore) {
    forall id :: id in s.events ==> id < s.nextId && s.events[id].id == id
  }

  const EmptyStore: EventStore := EventStore(map[], 0)

  /** What a request gets back: a JSON body with status 200, an error status with its
      message, or no answer at all when the model layer throws (the routes have no error
      handler). */
  datatype Answer<T> =
    | Json(body: T)
    | Refused(status: nat, message: string)
    | Unanswered(errors: set<EventPath>)

  /** The events of `user` among ids below n, in id order. */
  function OwnedBelow(events: map<EventId, Event>, user: UserId, n: nat): (r: seq<Event>)
    ensures forall i :: 0 <= i < |r| ==> r[i] in events.Values && r[i].user == user
    decreases n
  {
    if n == 0 then []
    else
      var k := n - 1;
      OwnedBelow(events, user, k)
        + (if k in events && events[k].user == user then [events[k]] else [])
  }

  lemma {:induction false} OwnedBelowComplete(s: EventStore, user: UserId, n: nat)
    requires GoodStore(s)
    ensures forall id :: id < n && id in s.events && s.events[id].user == user ==> s.events[id] in OwnedBelow(s.events, user, n)
    ensures forall i :: 0 <= i < |OwnedBelow(s.events, user, n)| ==> OwnedBelow(s.events, user, n)[i].id < n
    ensures forall i, j :: 0 <= i < j < |OwnedBelow(s.events, user, n)| ==>
      OwnedBelow(s.events, user, n)[i].id < OwnedBelow(s.events, user, n)[j].id
  {
    if n > 0 {
      OwnedBelowComplete(s, user, n - 1);
      var prefix := OwnedBelow(s.events, user, n - 1);
      var r := OwnedBelow(s.events, user, n);
      assert forall i :: 0 <= i < |prefix| ==> r[i] == prefix[i];
      forall i | 0 <= i < |prefix|
        ensures prefix[i] in s.events.Values
      {
      }
      assert forall i :: 0 <= i < |prefix| ==> prefix[i].id in s.events && prefix[i].id < n - 1;
    }
  }

  /** GET /api/events: the requester's events, in creation order (Event.find({ user })). */
  function ListEvents(s: EventStore, user: UserId): (r: seq<Event>)
    requires GoodStore(s)
    ensures forall i :: 0 <= i < |r| ==> r[i].user == user && r[i].id in s.events && s.events[r[i].id] == r[i]
    ensures forall id :: id in s.events && s.events[id].user == user ==> s.events[id] in r
    ensures forall i, j :: 0 <= i < j < |r| ==> r[i].id < r[j].id
  {
    OwnedBelowComplete(s, user, s.nextId);
    var r := OwnedBelow(s.events, user, s.nextId);
    assert forall i :: 0 <= i < |r| ==> r[i] in s.events.Values;
    r
  }

  /** POST /api/events. A missing or empty title is refused with 400 before the model is
      asked; otherwise the model validates the remaining fields and stores a new document
      owned by the requester. */
  function CreateEvent(s: EventStore, user: UserId, body: EventInput, now: Instant): (r: (EventStore, Answer<Event>))
    requires GoodStore(s)
    ensures GoodStore(r.0)
    ensures MissingText(body.title) ==> r == (s, Refused(400, "Please add a text field"))
    ensures r.1.Json? <==> !MissingText(body.title) && EventViolations(body) == {}
    ensures r.1.Unanswered? ==> r.1.errors == EventViolations(body)
    ensures !r.1.Json? ==> r.0 == s
    ensures r.1.Json? ==> r.1.body.id !in s.events && r.0.events == s.events[r.1.body.id := r.1.body]
    ensures r.1.Json? ==> r.1.body.id == s.nextId && r.0.nextId == s.nextId + 1
    ensures r.1.Json? ==> r.1.body.user == user && !r.1.body.completed
    ensures r.1.Json? ==> Some(r.1.body.title) == body.title && Some(r.1.body.date) == body.date
    ensures r.1.Json? ==> BuildEvent(s.nextId, user, body, now) == Ok(r.1.body)
  {
    if MissingText(body.title) then (s, Refused(400, "Please add a text field"))
    else
      match BuildEvent(s.nextId, user, body, now)
      case Err(v) => (s, Unanswered(v))
      case Ok(e) => (EventStore(s.events[s.nextId := e], s.nextId + 1), Json(e))
  }

  /** The checks shared by update and delete, in the source's order: the id must exist
      (400), a user must be attached to the request (401), and it must own the event (401). */
  function Guard(s: EventStore, requester: Option<UserId>, id: EventId): (r: Option<(nat, string)>)
    ensures r.None? <==> id in s.events && requester == Some(s.events[id].user)
    ensures id !in s.events ==> r == Some((400, "Event not found"))
    ensures id in s.events && requester.None? ==> r == Some((401, "User not found"))
    ensures id in s.events && requester.Some? && requester.value != s.events[id].user
            ==> r == Some((401, "User not authorized"))
  {
    if id !in s.events then Some((400, "Event not found"))
    else if requester.None? then Some((401, "User not found"))
    else if s.events[id].user != requester.value then Some((401, "User not authorized"))
    else None
  }

  /** PUT /api/events/:id: applies the request body to the owner's event and answers with the
      updated document. Any body field is applied, the owner included. */
  function UpdateEvent(s: EventStore, requester: Option<UserId>, id: EventId, patch: EventPatch, now: Instant)
    : (r: (EventStore, Answer<Event>))
    ensures Guard(s, requester, id).Some? ==>
      r == (s, Refused(Guard(s, requester, id).value.0, Guard(s, requester, id).value.1))
    ensures r.1.Json? <==> id in s.events && requester == Some(s.events[id].user)
    ensures r.1.Json? ==> r.1.body == ApplyPatch(s.events[id], patch, now)
    ensures r.1.Json? ==> r.0 == s.(events := s.events[id := r.1.body])
    ensures GoodStore(s) ==> GoodStore(r.0)
  {
    var g := Guard(s, requester, id);
    if g.Some? then (s, Refused(g.value.0, g.value.1))
    else
      var e := ApplyPatch(s.events[id], patch, now);
      (s.(events := s.events[id := e]), Json(e))
  }

  /** DELETE /api/events/:id: removes the owner's event and answers with its id. */
  function DeleteEvent(s: EventStore, requester: Option<UserId>, id: EventId): (r: (EventStore, Answer<EventId>))
    ensures Guard(s, requester, id).Some? ==>
      r == (s, Refused(Guard(s, requester, id).value.0, Guard(s, requester, id).value.1))
    ensures r.1.Json? <==> id in s.events && requester == Some(s.events[id].user)
    ensures r.1.Json? ==> r.1.body == id && id !in r.0.events
    ensures r.1.Json? ==> forall k :: k != id ==> (k in r.0.events <==> k in s.events)
    ensures r.1.Json? ==> forall k :: k in r.0.events ==> r.0.events[k] == s.events[k]
    ensures GoodStore(s) ==> GoodStore(r.0)
  {
    var g := Guard(s, requester, id);
    if g.Some? then (s, Refused(g.value.0, g.value.1))
    else (s.(events := s.events - {id}), Json(id))
  }

  /** Someone other than the owner can neither update nor delete an event: the request is
      refused with 401 and the store is left as it was. */
  lemma NonOwnerCannotChange(s: EventStore, requester: UserId, id: EventId, patch: EventPatch, now: Instant)
    requires id in s.events && s.events[id].user != requester
    ensures UpdateEvent(s, Some(requester), id, patch, now).0 == s
    ensures DeleteEvent(s, Some(requester), id).0 == s
    ensures UpdateEvent(s, Some(requester), id, patch, now).1 == Refused(401, "User not authorized")
  {
  }
}
