/** How the client's list follows the server. After a fetch the client holds exactly the
    server's list for its user; each successful create, update or delete, applied on the
    server and then reconciled on the client from the response, keeps the two equal, and a
    refused request changes neither. */
module Sync {
  import opened Wrappers
  import opened Records
  import EC = EventController
  import Ctx = EventContext

  /** What the client receives for a server answer: the JSON body on 200; a rejection for an
      error status or a request left unanswered. */
  function Deliver<T>(a: EC.Answer<T>): (r: Ctx.Response<T>)
    ensures r.Received? <==> a.Json?
  {
    if a.Json? then Ctx.Received(a.body) else Ctx.Failed
  }

  /** The client's list for `user` equals the server's. */
  predicate Mirrors(st: Ctx.ClientState, s: EC.EventStore, user: UserId)
    requires EC.GoodStore(s)
  {
    st.events == EC.ListEvents(s, user)
  }

  lemma {:induction false} OwnedAgrees(a: map<EventId, Event>, b: map<EventId, Event>, user: UserId, n: nat)
    requires forall k :: k < n ==> (k in a <==> k in b) && (k in a ==> a[k] == b[k])
    ensures EC.OwnedBelow(a, user, n) == EC.OwnedBelow(b, user, n)
  {
    if n > 0 {
      OwnedAgrees(a, b, user, n - 1);
    }
  }

  lemma {:induction false} OwnedBelowRemove(events: map<EventId, Event>, user: UserId, n: nat, id: EventId)
    requires forall k :: k in events ==> events[k].id == k
    ensures EC.OwnedBelow(events - {id}, user, n) == Ctx.RemoveById(EC.OwnedBelow(events, user, n), id)
  {
    if n > 0 {
      var k := n - 1;
      OwnedBelowRemove(events, user, k, id);
      var tail := if k in events && events[k].user == user then [events[k]] else [];
      var rest := events - {id};
      var tail' := if k in rest && rest[k].user == user then [rest[k]] else [];
      assert EC.OwnedBelow(rest, user, n) == EC.OwnedBelow(rest, user, k) + tail';
      Ctx.RemoveByIdAppend(EC.OwnedBelow(events, user, k), tail, id);
      RemoveSingle(tail, id);
      assert Ctx.RemoveById(tail, id) == tail';
    }
  }

  lemma RemoveSingle(tail: seq<Event>, id: EventId)
    requires |tail| <= 1
    ensures Ctx.RemoveById(tail, id) == if tail != [] && tail[0].id != id then tail else []
  {
    if tail != [] {
      assert tail[1..] == [];
    }
  }

  lemma {:induction false} OwnedBelowReplace(events: map<EventId, Event>, user: UserId, n: nat, id: EventId, e: Event)
    requires forall k :: k in events ==> events[k].id == k
    requires id in events && e.id == id
    requires (e.user == user) == (events[id].user == user)
    ensures EC.OwnedBelow(events[id := e], user, n) == Ctx.ReplaceById(EC.OwnedBelow(events, user, n), id, e)
  {
    if n > 0 {
      var k := n - 1;
      OwnedBelowReplace(events, user, k, id, e);
      var tail := if k in events && events[k].user == user then [events[k]] else [];
      Ctx.ReplaceByIdAppend(EC.OwnedBelow(events, user, k), tail, id, e);
    }
  }

  /** A fetch makes the client mirror the server. */
  lemma FetchMirrors(st: Ctx.ClientState, s: EC.EventStore, user: UserId)
    requires EC.GoodStore(s)
    ensures Mirrors(Ctx.GetEvents(st, Ctx.Received(EC.ListEvents(s, user))), s, user)
    ensures !Ctx.GetEvents(st, Ctx.Received(EC.ListEvents(s, user))).loading
  {
  }

  /** Creating an event keeps the client's list equal to the server's. */
  lemma CreateKeepsMirror(st: Ctx.ClientState, s: EC.EventStore, user: UserId, body: EventInput, now: int)
    requires EC.GoodStore(s) && Mirrors(st, s, user)
    ensures var r := EC.CreateEvent(s, user, body, now);
      EC.GoodStore(r.0) && Mirrors(Ctx.CreateEvent(st, Deliver(r.1)).0, r.0, user)
  {
    var r := EC.CreateEvent(s, user, body, now);
    if r.1.Json? {
      var e := r.1.body;
      OwnedAgrees(r.0.events, s.events, user, s.nextId);
      assert EC.OwnedBelow(r.0.events, user, r.0.nextId) == EC.OwnedBelow(s.events, user, s.nextId) + [e];
      assert Ctx.CreateEvent(st, Deliver(r.1)).0.events == st.events + [e];
    } else {
      assert r.0 == s;
    }
  }

  /** Deleting one's own event keeps the client's list equal to the server's. */
  lemma DeleteKeepsMirror(st: Ctx.ClientState, s: EC.EventStore, user: UserId, id: EventId)
    requires EC.GoodStore(s) && Mirrors(st, s, user)
    ensures var r := EC.DeleteEvent(s, Some(user), id);
      EC.GoodStore(r.0) && Mirrors(Ctx.DeleteEvent(st, id, Deliver(r.1)), r.0, user)
  {
    var r := EC.DeleteEvent(s, Some(user), id);
    if r.1.Json? {
      assert r.0.events == s.events - {id};
      OwnedBelowRemove(s.events, user, s.nextId, id);
    }
  }

  /** Updating one's own event keeps the client's list equal to the server's, as long as the
      body does not hand the event to another user. */
  lemma UpdateKeepsMirror(st: Ctx.ClientState, s: EC.EventStore, user: UserId, id: EventId, patch: EventPatch, now: int)
    requires EC.GoodStore(s) && Mirrors(st, s, user)
    requires patch.user.None? || patch.user == Some(user)
    ensures var r := EC.UpdateEvent(s, Some(user), id, patch, now);
      EC.GoodStore(r.0) && Mirrors(Ctx.UpdateEvent(st, id, Deliver(r.1)).0, r.0, user)
  {
    var r := EC.UpdateEvent(s, Some(user), id, patch, now);
    if r.1.Json? {
      OwnedBelowReplace(s.events, user, s.nextId, id, r.1.body);
    }
  }
}
