/**
 The publishing side: a service generation is a set of Sessions and one log of
 events, each carrying the successor of its Session's cursor. `MockAppClient`
 (gui/src/client/mockAppClient.ts) is the in-process publisher; the lemmas below
 are what every client argument rests on.
 */
module EventService {
  import opened Options
  import opened Decimals
  import opened ClientState

  datatype Service = Service(
    generation: string,
    order: seq<string>,
    bases: map<string, Session>,
    log: seq<Event>)

  /** The events of one Session, in log order. */
  function Own(log: seq<Event>, id: string): (own: seq<Event>)
    ensures |own| <= |log|
  {
    if log == [] then []
    else
      var last := log[|log| - 1];
      var before := Own(log[..|log| - 1], id);
      if last.sessionId == id then before + [last] else before
  }

  function CursorNumber(s: Session): int {
    var n := BigIntOf(s.cursor);
    if n.Some? then n.value else -1
  }

  ghost predicate ValidBases(s: Service) {
    && (forall i, j :: 0 <= i < j < |s.order| ==> s.order[i] != s.order[j])
    && (forall id :: id in s.order <==> id in s.bases)
    && (forall id :: id in s.bases ==> s.bases[id].id == id && CursorNumber(s.bases[id]) >= 0)
  }

  /** Event `i` continues its Session: it names the next cursor. */
  ghost predicate Continues(s: Service, i: nat)
    requires i < |s.log|
  {
    var e := s.log[i];
    && e.generation == s.generation
    && e.sessionId in s.bases
    && CursorNumber(s.bases[e.sessionId]) >= 0
    && e.cursor == Print(CursorNumber(s.bases[e.sessionId]) + |Own(s.log[..i], e.sessionId)| + 1)
  }

  ghost predicate ValidService(s: Service) {
    ValidBases(s) && forall i :: 0 <= i < |s.log| ==> Continues(s, i)
  }

  /** The Session after the first `n` events of the whole log. */
  function SessionAt(s: Service, id: string, n: nat): Session
    requires id in s.bases && n <= |s.log|
  {
    Replay(s.bases[id], Own(s.log[..n], id))
  }

  ghost function ViewAt(s: Service, n: nat): seq<Session>
    requires ValidService(s) && n <= |s.log|
  {
    seq(|s.order|, i requires 0 <= i < |s.order| => SessionAt(s, s.order[i], n))
  }

  // ----------------------------------------------------------- log arithmetic

  lemma OwnAppend(log: seq<Event>, e: Event, id: string)
    ensures Own(log + [e], id) == if e.sessionId == id then Own(log, id) + [e] else Own(log, id)
  {
    assert (log + [e])[..|log|] == log;
  }

  lemma {:induction false} OwnPrefix(log: seq<Event>, n: nat, id: string)
    requires n <= |log|
    ensures Own(log[..n], id) <= Own(log, id)
  {
    if n == |log| {
      assert log[..n] == log;
    } else {
      var shorter := log[..|log| - 1];
      OwnPrefix(shorter, n, id);
      assert shorter[..n] == log[..n];
    }
  }

  /** Position `i` of the log is entry number `|Own(log[..i])|` of its Session. */
  lemma OwnPosition(log: seq<Event>, i: nat)
    requires i < |log|
    ensures var id := log[i].sessionId;
            var k := |Own(log[..i], id)|;
            k < |Own(log, id)| && Own(log, id)[k] == log[i]
  {
    var id := log[i].sessionId;
    assert log[..i + 1] == log[..i] + [log[i]];
    OwnAppend(log[..i], log[i], id);
    OwnPrefix(log, i + 1, id);
  }

  lemma {:induction false} ReplayKeepsId(session: Session, events: seq<Event>)
    ensures Replay(session, events).id == session.id
    ensures events != [] ==> Replay(session, events).cursor == events[|events| - 1].cursor
  {
    if events != [] {
      ReplayKeepsId(session, events[..|events| - 1]);
    }
  }

  lemma ReplayAppend(session: Session, events: seq<Event>, e: Event)
    ensures Replay(session, events + [e]) == ReduceSession(Replay(session, events), e)
  {
    assert (events + [e])[..|events|] == events;
  }

  /** Entry `k` of a Session's list carries cursor number base + k + 1. */
  lemma OwnCursor(s: Service, id: string, k: nat)
    requires ValidService(s) && id in s.bases && k < |Own(s.log, id)|
    ensures BigIntOf(Own(s.log, id)[k].cursor) == Some(CursorNumber(s.bases[id]) + k + 1)
  {
    hide BigIntOf, Print, Own;
    var i := IndexOfOwn(s.log, id, k);
    assert Continues(s, i);
    BigIntOfPrint(CursorNumber(s.bases[id]) + k + 1);
  }

  lemma {:induction false} IndexOfOwn(log: seq<Event>, id: string, k: nat) returns (i: nat)
    requires k < |Own(log, id)|
    ensures i < |log| && log[i] == Own(log, id)[k] && log[i].sessionId == id && |Own(log[..i], id)| == k
  {
    var shorter := log[..|log| - 1];
    if k < |Own(shorter, id)| {
      i := IndexOfOwn(shorter, id, k);
      assert shorter[..i] == log[..i];
    } else {
      i := |log| - 1;
    }
  }

  /** A Session that has folded its first `k` events stands at cursor base + k. */
  lemma ReplayedCursor(s: Service, id: string, k: nat)
    requires ValidService(s) && id in s.bases && k <= |Own(s.log, id)|
    ensures var at := Replay(s.bases[id], Own(s.log, id)[..k]);
            at.id == id && BigIntOf(at.cursor) == Some(CursorNumber(s.bases[id]) + k)
  {
    hide BigIntOf, ReduceSession, Print;
    var own := Own(s.log, id);
    ReplayKeepsId(s.bases[id], own[..k]);
    if k == 0 {
      assert Replay(s.bases[id], own[..k]) == s.bases[id];
    } else {
      OwnCursor(s, id, k - 1);
      assert own[..k][k - 1] == own[k - 1];
    }
  }

  lemma SessionAtIsReplay(s: Service, id: string, n: nat)
    requires ValidService(s) && id in s.bases && n <= |s.log|
    ensures var k := |Own(s.log[..n], id)|;
            && k <= |Own(s.log, id)|
            && SessionAt(s, id, n) == Replay(s.bases[id], Own(s.log, id)[..k])
            && SessionAt(s, id, n).id == id
            && BigIntOf(SessionAt(s, id, n).cursor) == Some(CursorNumber(s.bases[id]) + k)
  {
    hide BigIntOf, ReduceSession, Print, Continues;
    var k := |Own(s.log[..n], id)|;
    OwnPrefix(s.log, n, id);
    assert Own(s.log[..n], id) == Own(s.log, id)[..k];
    ReplayedCursor(s, id, k);
  }

  /** The Sessions of a view, keyed by id, are exactly the Sessions of the service. */
  lemma ViewById(s: Service, n: nat)
    requires ValidService(s) && n <= |s.log|
    ensures ById(ViewAt(s, n)) == map id | id in s.bases :: SessionAt(s, id, n)
  {
    hide BigIntOf, ReduceSession, Replay, Own, Continues, ById, SessionAt;
    var view := ViewAt(s, n);
    forall i | 0 <= i < |view|
      ensures view[i].id == s.order[i]
    {
      SessionAtIsReplay(s, s.order[i], n);
    }
    ByIdDistinct(view);
    var m := ById(view);
    forall id | id in s.bases
      ensures id in m && m[id] == SessionAt(s, id, n)
    {
      var i :| 0 <= i < |s.order| && s.order[i] == id;
      assert view[i].id == id;
    }
    forall id | id in m
      ensures id in s.bases
    {
      var i: nat :| Names(view, i, id);
      assert s.order[i] in s.order;
    }
  }

  ghost predicate Names(sessions: seq<Session>, i: nat, id: string) {
    i < |sessions| && sessions[i].id == id
  }

  lemma {:induction false} ByIdDistinct(sessions: seq<Session>)
    requires forall i, j :: 0 <= i < j < |sessions| ==> sessions[i].id != sessions[j].id
    ensures forall i :: 0 <= i < |sessions| ==>
                          sessions[i].id in ById(sessions) && ById(sessions)[sessions[i].id] == sessions[i]
    ensures forall id :: id in ById(sessions) ==> exists i: nat :: Names(sessions, i, id)
  {
    hide ById;
    if sessions == [] {
      NoneById();
    } else {
      var shorter, last := sessions[..|sessions| - 1], sessions[|sessions| - 1];
      ByIdDistinct(shorter);
      LastById(sessions);
      assert forall i :: 0 <= i < |shorter| ==> sessions[i] == shorter[i] && shorter[i].id != last.id;
      forall id | id in ById(sessions)
        ensures exists i: nat :: Names(sessions, i, id)
      {
        if id == last.id {
          assert Names(sessions, |sessions| - 1, id);
        } else {
          var i: nat :| Names(shorter, i, id);
          assert Names(sessions, i, id);
        }
      }
    }
  }

  lemma NoneById()
    ensures ById([]) == map[]
  {
  }

  lemma LastById(sessions: seq<Session>)
    requires sessions != []
    ensures var last := sessions[|sessions| - 1];
            ById(sessions) == ById(sessions[..|sessions| - 1])[last.id := last]
  {
  }

  // ------------------------------------------------------------- publishing

  function NextEvent(s: Service, id: string, body: Body): Event
    requires id in s.bases && CursorNumber(s.bases[id]) >= 0
  {
    Event(s.generation, id, Print(CursorNumber(s.bases[id]) + |Own(s.log, id)| + 1), body)
  }

  function Published(s: Service, id: string, body: Body): Service
    requires id in s.bases && CursorNumber(s.bases[id]) >= 0
  {
    s.(log := s.log + [NextEvent(s, id, body)])
  }

  lemma PublishedIsValid(s: Service, id: string, body: Body)
    requires ValidService(s) && id in s.bases
    ensures ValidService(Published(s, id, body))
  {
    hide BigIntOf, Print;
    var t := Published(s, id, body);
    forall i | 0 <= i < |t.log|
      ensures Continues(t, i)
    {
      if i < |s.log| {
        assert Continues(s, i);
        assert t.log[..i] == s.log[..i];
      } else {
        assert t.log[..i] == s.log;
      }
    }
  }

  lemma PublishedView(s: Service, id: string, body: Body)
    requires ValidService(s) && id in s.bases && ValidService(Published(s, id, body))
    ensures ViewAt(Published(s, id, body), |s.log| + 1)
            == MapSeq((x: Session) => if x.id == id then ReduceSession(x, NextEvent(s, id, body)) else x,
                      ViewAt(s, |s.log|))
  {
    hide BigIntOf, Print, ReduceSession, Own, Replay, Continues;
    var t, e := Published(s, id, body), NextEvent(s, id, body);
    var f := (x: Session) => if x.id == id then ReduceSession(x, e) else x;
    assert t.log[..|s.log| + 1] == s.log + [e] && s.log[..|s.log|] == s.log;
    forall i | 0 <= i < |s.order|
      ensures ViewAt(t, |s.log| + 1)[i] == MapSeq(f, ViewAt(s, |s.log|))[i]
    {
      var x := s.order[i];
      OwnAppend(s.log, e, x);
      ReplayAppend(s.bases[x], Own(s.log, x), e);
      ReplayKeepsId(s.bases[x], Own(s.log, x));
    }
  }

  /** A service that has published nothing yet. */
  function Opened(generation: string, sessions: seq<Session>): Service {
    Service(generation, MapSeq((x: Session) => x.id, sessions), ById(sessions), [])
  }

  ghost predicate Openable(sessions: seq<Session>) {
    && (forall i, j :: 0 <= i < j < |sessions| ==> sessions[i].id != sessions[j].id)
    && forall i :: 0 <= i < |sessions| ==> CursorNumber(sessions[i]) >= 0
  }

  lemma OpenedIsValid(generation: string, sessions: seq<Session>)
    requires Openable(sessions)
    ensures var s := Opened(generation, sessions);
            ValidService(s) && s.generation == generation && s.log == [] && ViewAt(s, |s.log|) == sessions
  {
    hide CursorNumber, ById;
    ByIdDistinct(sessions);
    var s := Opened(generation, sessions);
    forall id ensures id in s.order <==> id in s.bases {
      if id in s.bases {
        var i: nat :| Names(sessions, i, id);
        assert s.order[i] == id;
      }
    }
    forall i | 0 <= i < |sessions| ensures ViewAt(s, 0)[i] == sessions[i] {
      assert s.log[..0] == [];
    }
  }

  /** The numeric cursors of a service's Sessions after its whole log. */
  ghost predicate Counting(s: Service, cursors: map<string, nat>) {
    forall id :: id in s.bases ==> id in cursors && cursors[id] == CursorNumber(s.bases[id]) + |Own(s.log, id)|
  }

  /** The cursors of the first `n` Sessions of a snapshot. */
  ghost predicate StartCursors(sessions: seq<Session>, n: nat, cursors: map<string, nat>)
    requires n <= |sessions|
  {
    && (forall k :: 0 <= k < n ==> sessions[k].id in cursors && cursors[sessions[k].id] == CursorNumber(sessions[k]))
    && forall id :: id in cursors ==> exists k: nat :: k < n && Names(sessions, k, id)
  }

  lemma StartsCounting(generation: string, sessions: seq<Session>, cursors: map<string, nat>)
    requires Openable(sessions) && StartCursors(sessions, |sessions|, cursors)
    ensures Counting(Opened(generation, sessions), cursors)
    ensures forall id :: id in cursors <==> id in Opened(generation, sessions).bases
  {
    hide CursorNumber, ById;
    ByIdDistinct(sessions);
    var s := Opened(generation, sessions);
    forall id | id in s.bases
      ensures id in cursors && cursors[id] == CursorNumber(s.bases[id]) + |Own(s.log, id)|
    {
      var k: nat :| Names(sessions, k, id);
      assert s.bases[id] == sessions[k];
    }
    forall id | id in cursors
      ensures id in s.bases
    {
      var k: nat :| k < |sessions| && Names(sessions, k, id);
    }
  }

  lemma NoneCounted(sessions: seq<Session>)
    ensures StartCursors(sessions, 0, map[])
  {
  }

  lemma NextStartCursor(sessions: seq<Session>, i: nat, cursors: map<string, nat>)
    requires Openable(sessions) && i < |sessions| && StartCursors(sessions, i, cursors)
    ensures CursorNumber(sessions[i]) >= 0
    ensures StartCursors(sessions, i + 1, cursors[sessions[i].id := CursorNumber(sessions[i])])
  {
    hide CursorNumber;
    assert Names(sessions, i, sessions[i].id);
  }

  lemma PublishedCounting(s: Service, id: string, body: Body, cursors: map<string, nat>)
    requires ValidService(s) && id in s.bases && Counting(s, cursors)
    ensures Counting(Published(s, id, body), cursors[id := cursors[id] + 1])
  {
    hide BigIntOf, Print, CursorNumber, Continues;
    forall x | x in s.bases
      ensures |Own(s.log + [NextEvent(s, id, body)], x)| == |Own(s.log, x)| + if x == id then 1 else 0
    {
      OwnAppend(s.log, NextEvent(s, id, body), x);
    }
  }

  /** The in-process publisher. It keeps current Sessions and numeric cursors, and no log:
      the ghost service is the log it has in effect published. */
  class MockAppClient {
    var generation: string
    var sessions: seq<Session>
    var cursors: map<string, nat>
    ghost var service: Service

    ghost predicate Valid()
      reads this
    {
      && ValidService(service)
      && generation == service.generation
      && sessions == ViewAt(service, |service.log|)
      && Counting(service, cursors)
    }

    /** The client starts from a snapshot whose Sessions have different ids and readable cursors. */
    constructor (generation: string, snapshot: seq<Session>)
      requires Openable(snapshot)
      ensures Valid() && this.generation == generation && sessions == snapshot
      ensures service == Opened(generation, snapshot)
      ensures forall id :: id in cursors <==> id in service.bases
    {
      this.generation := generation;
      sessions := snapshot;
      cursors := map[];
      service := Opened(generation, snapshot);
      new;
      NoneCounted(snapshot);
      hide CursorNumber, Openable, StartCursors, ValidService, Opened, ViewAt, Counting;
      for i := 0 to |snapshot|
        invariant this.generation == generation && sessions == snapshot && service == Opened(generation, snapshot)
        invariant StartCursors(snapshot, i, cursors)
      {
        NextStartCursor(snapshot, i, cursors);
        cursors := cursors[snapshot[i].id := CursorNumber(snapshot[i])];
      }
      OpenedIsValid(generation, snapshot);
      StartsCounting(generation, snapshot, cursors);
    }

    /** `nextCursor`: an id not met before counts from zero. */
    method NextCursor(id: string) returns (cursor: string)
      modifies this`cursors
      ensures var next := (if id in old(cursors) then old(cursors)[id] else 0) + 1;
              cursors == old(cursors)[id := next] && cursor == Print(next)
    {
      var next := (if id in cursors then cursors[id] else 0) + 1;
      cursors := cursors[id := next];
      cursor := Print(next);
    }

    /** `emit(event)` with a cursor from `nextCursor`: the snapshot handed out from now on is
        the fold of the whole published log, and the event is the next one of its Session. An
        event of an unknown Session changes no Session and is not part of any log. */
    method Publish(id: string, body: Body) returns (event: Event)
      requires Valid()
      modifies this
      ensures Valid()
      ensures event.generation == old(generation) && event.sessionId == id && event.body == body
      ensures id in old(service).bases ==>
                && CursorNumber(old(service).bases[id]) >= 0
                && service == Published(old(service), id, body)
                && event == service.log[|service.log| - 1]
      ensures id !in old(service).bases ==>
                && service == old(service) && sessions == old(sessions)
                && event.cursor == Print((if id in old(cursors) then old(cursors)[id] else 0) + 1)
    {
      hide BigIntOf, ReduceSession, Replay, ViewAt, Continues, Print, ById, Own;
      var cursor := NextCursor(id);
      event := Event(generation, id, cursor, body);
      ghost var was := sessions;
      sessions := MapSeq((x: Session) => if x.id == id then ReduceSession(x, event) else x, sessions);
      if id in service.bases {
        PublishedIsValid(service, id, body);
        PublishedView(service, id, body);
        PublishedCounting(service, id, body, old(cursors));
        service := Published(service, id, body);
      } else {
        UnknownSession(service, id);
        assert sessions == was;
      }
    }
  }

  lemma UnknownSession(s: Service, id: string)
    requires ValidService(s) && id !in s.bases
    ensures forall i :: 0 <= i < |ViewAt(s, |s.log|)| ==> ViewAt(s, |s.log|)[i].id != id
  {
    hide BigIntOf, ReduceSession, Replay, Continues;
    forall i | 0 <= i < |s.order|
      ensures ViewAt(s, |s.log|)[i].id != id
    {
      SessionAtIsReplay(s, s.order[i], |s.log|);
    }
  }
}
