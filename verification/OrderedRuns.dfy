/**
 Runs over a channel that delivers one service's events in order and without loss, while
 snapshots are taken at any moment between a request and its answer.
 */
module OrderedRuns {
  import opened Options
  import opened Decimals
  import opened ClientState
  import opened EventService
  import opened SyncEffect

  /** `delivered` events have reached the listener; a refresh that is on its way was asked for
      after `since` of them, and its snapshot covers the first `cut` events once it is taken. */
  datatype World = World(service: Service, delivered: nat, since: nat, cut: Option<nat>, sync: Sync)

  datatype Step =
    | Publish(sessionId: string, body: Body)
    | Deliver
    | Refresh
    | TakeSnapshot
    | Reply(connection: Connection, source: SourceKind)
    | Refuse
    | Push(seen: nat, connection: Connection, source: SourceKind)
    | Lose(connection: Connection)

  ghost predicate Live(connection: Connection) {
    connection.Connected? || connection.FixtureOffline?
  }

  /** What a client shows that has installed the first `n` events. */
  ghost function GuiAt(s: Service, n: nat, connection: Connection, source: SourceKind): GuiState
    requires ValidService(s) && n <= |s.log|
  {
    InstallSnapshot(Snapshot(s.generation, connection, source, ViewAt(s, n)))
  }

  ghost function Next(w: World, step: Step): World
    requires ValidService(w.service)
  {
    match step
    case Publish(id, body) =>
      if id !in w.service.bases then w else w.(service := Published(w.service, id, body))
    case Deliver =>
      if w.delivered >= |w.service.log| then w
      else w.(sync := EventArrived(w.sync, w.service.log[w.delivered]), delivered := w.delivered + 1)
    case Refresh =>
      if w.sync.pending then w else w.(sync := StartRefresh(w.sync), since := w.delivered, cut := None)
    case TakeSnapshot =>
      if !w.sync.pending || w.cut.Some? then w else w.(cut := Some(|w.service.log|))
    case Reply(connection, source) =>
      if !w.sync.pending || w.cut.None? || w.cut.value > |w.service.log| || !Live(connection) then w
      else w.(sync := SnapshotArrived(w.sync, Snapshot(w.service.generation, connection, source, ViewAt(w.service, w.cut.value))),
              cut := None)
    case Refuse => if !w.sync.pending then w else w.(sync := SnapshotRefused(w.sync), cut := None)
    case Push(n, connection, source) =>
      if !(w.delivered <= n <= |w.service.log|) || !Live(connection) then w
      else w.(sync := SnapshotPushed(w.sync, Snapshot(w.service.generation, connection, source, ViewAt(w.service, n))))
    case Lose(connection) =>
      if Live(connection) then w else w.(sync := ConnectionLost(w.sync, connection))
  }

  // --------------------------------------------------- covered, next, or later

  lemma SessionsAt(s: Service, n: nat, connection: Connection, source: SourceKind)
    requires ValidService(s) && n <= |s.log|
    ensures GuiAt(s, n, connection, source).sessions == map id | id in s.bases :: SessionAt(s, id, n)
  {
    ViewById(s, n);
  }

  /** An event the snapshot already covers is ignored. */
  lemma CoveredEvent(s: Service, i: nat, n: nat, connection: Connection, source: SourceKind)
    requires ValidService(s) && i < n <= |s.log| && Live(connection)
    ensures ApplyEvent(GuiAt(s, n, connection, source), s.log[i]) == GuiAt(s, n, connection, source)
  {
    hide BigIntOf, ReduceSession, Replay, ById, ViewAt, Print;
    var e := s.log[i];
    assert Continues(s, i);
    var before := |Own(s.log[..i], e.sessionId)|;
    SessionsAt(s, n, connection, source);
    SessionAtIsReplay(s, e.sessionId, n);
    BigIntOfPrint(CursorNumber(s.bases[e.sessionId]) + before + 1);
    OwnPosition(s.log[..n], i);
    assert s.log[..n][..i] == s.log[..i];
  }

  /** The event right after the snapshot takes it one event further. */
  lemma NextEventApplies(s: Service, n: nat, connection: Connection, source: SourceKind)
    requires ValidService(s) && n < |s.log| && Live(connection)
    ensures ApplyEvent(GuiAt(s, n, connection, source), s.log[n]) == GuiAt(s, n + 1, connection, source)
  {
    hide BigIntOf, ReduceSession, SessionAt, ById, ViewAt, Own, Print;
    var e := s.log[n];
    SessionsAt(s, n, connection, source);
    SessionsAt(s, n + 1, connection, source);
    NextNumber(s, n);
    forall id | id in s.bases
      ensures SessionAt(s, id, n + 1) == if id == e.sessionId then ReduceSession(SessionAt(s, id, n), e) else SessionAt(s, id, n)
    {
      OneEventOn(s, n, id);
    }
    assert ApplyEvent(GuiAt(s, n, connection, source), e).sessions == GuiAt(s, n + 1, connection, source).sessions;
  }

  lemma OneEventOn(s: Service, n: nat, id: string)
    requires ValidService(s) && n < |s.log| && id in s.bases
    ensures SessionAt(s, id, n + 1)
            == if id == s.log[n].sessionId then ReduceSession(SessionAt(s, id, n), s.log[n]) else SessionAt(s, id, n)
  {
    hide Continues, ValidBases, ReduceSession, Own, Replay;
    assert s.log[..n + 1] == s.log[..n] + [s.log[n]];
    OwnAppend(s.log[..n], s.log[n], id);
    ReplayAppend(s.bases[id], Own(s.log[..n], id), s.log[n]);
  }

  /** Event n names the number after the one its Session stands at. */
  lemma NextNumber(s: Service, n: nat)
    requires ValidService(s) && n < |s.log|
    ensures var e := s.log[n];
            && e.generation == s.generation && e.sessionId in s.bases
            && BigIntOf(SessionAt(s, e.sessionId, n).cursor).Some?
            && BigIntOf(e.cursor) == Some(BigIntOf(SessionAt(s, e.sessionId, n).cursor).value + 1)
  {
    hide BigIntOf, Print, ReduceSession, Own, Replay, SessionAt;
    assert Continues(s, n);
    SessionAtIsReplay(s, s.log[n].sessionId, n);
    BigIntOfPrint(CursorNumber(s.bases[s.log[n].sessionId]) + |Own(s.log[..n], s.log[n].sessionId)| + 1);
  }

  function Max(a: nat, b: nat): nat {
    if a < b then b else a
  }

  /** Replaying everything that arrived since the request over the snapshot reaches the later
      of the two points: nothing between them is lost, repeated or taken for a gap. */
  lemma {:induction false} ReplayOverSnapshot(s: Service, since: nat, end: nat, cut: nat,
                                              connection: Connection, source: SourceKind)
    requires ValidService(s) && since <= end <= |s.log| && since <= cut <= |s.log| && Live(connection)
    ensures ApplyAll(GuiAt(s, cut, connection, source), s.log[since..end]) == GuiAt(s, Max(cut, end), connection, source)
    decreases end
  {
    hide BigIntOf, ApplyEvent, InstallSnapshot, ViewAt;
    if since < end {
      ReplayOverSnapshot(s, since, end - 1, cut, connection, source);
      assert s.log[since..end][..end - 1 - since] == s.log[since..end - 1];
      if end - 1 < cut {
        CoveredEvent(s, end - 1, cut, connection, source);
      } else {
        NextEventApplies(s, end - 1, connection, source);
      }
    }
  }

  // -------------------------------------------------------------- whole runs

  /** While a refresh is on its way the buffer holds what arrived since, up to the limit. */
  ghost predicate Buffering(w: World) {
    var arrived := w.delivered - w.since;
    && w.since <= w.delivered <= |w.service.log|
    && (w.cut.Some? ==> w.since <= w.cut.value <= |w.service.log|)
    && w.sync.active
    && (w.sync.pending ==>
          && (w.sync.overflow <==> arrived > BUFFER_LIMIT)
          && w.sync.buffered == w.service.log[w.since..w.since + if arrived <= BUFFER_LIMIT then arrived else BUFFER_LIMIT])
  }

  /** A client that is not frozen shows the service after some number of events, never fewer
      than have been delivered to it. */
  ghost predicate ShowsAt(w: World, n: nat)
    requires ValidService(w.service)
  {
    && n <= |w.service.log|
    && (w.sync.pending || w.delivered <= n)
    && w.sync.gui == GuiAt(w.service, n, w.sync.gui.connection, w.sync.gui.source)
  }

  ghost predicate Inv(w: World) {
    && ValidService(w.service)
    && Buffering(w)
    && (Live(w.sync.gui.connection) ==> exists n: nat :: ShowsAt(w, n))
  }

  lemma PublishKeepsGui(s: Service, id: string, body: Body, n: nat, connection: Connection, source: SourceKind)
    requires ValidService(s) && id in s.bases && n <= |s.log| && ValidService(Published(s, id, body))
    ensures GuiAt(Published(s, id, body), n, connection, source) == GuiAt(s, n, connection, source)
  {
    hide BigIntOf, Replay, ById, Own;
    var t := Published(s, id, body);
    assert t.log[..n] == s.log[..n];
    assert ViewAt(t, n) == ViewAt(s, n);
  }

  lemma PublishStep(w: World, id: string, body: Body)
    requires Inv(w) && id in w.service.bases
    ensures Inv(Next(w, Publish(id, body)))
  {
    hide BigIntOf, InstallSnapshot, ViewAt, Own, NextEvent, GuiAt;
    var t := Next(w, Publish(id, body));
    PublishedIsValid(w.service, id, body);
    if Live(w.sync.gui.connection) {
      var n: nat :| ShowsAt(w, n);
      PublishKeepsGui(w.service, id, body, n, w.sync.gui.connection, w.sync.gui.source);
      assert ShowsAt(t, n);
    }
  }

  /** A delivered event never changes the connection: over this channel nothing looks like a gap. */
  lemma DeliverStep(w: World)
    requires Inv(w)
    ensures Inv(Next(w, Deliver))
    ensures Next(w, Deliver).sync.gui.connection == w.sync.gui.connection
  {
    hide BigIntOf, InstallSnapshot, ViewAt, Own, GuiAt, Continues;
    var t := Next(w, Deliver);
    if w.delivered < |w.service.log| {
      if w.sync.pending {
        if Live(w.sync.gui.connection) {
          var n: nat :| ShowsAt(w, n);
          assert ShowsAt(t, n);
        }
      } else if Live(w.sync.gui.connection) {
        var n: nat :| ShowsAt(w, n);
        DeliverOne(w.service, w.delivered, n, w.sync.gui.connection, w.sync.gui.source);
        assert t.sync.gui == GuiAt(w.service, Max(n, w.delivered + 1), w.sync.gui.connection, w.sync.gui.source);
        assert ShowsAt(t, Max(n, w.delivered + 1));
      }
    }
  }

  lemma DeliverOne(s: Service, i: nat, n: nat, connection: Connection, source: SourceKind)
    requires ValidService(s) && i < |s.log| && i <= n <= |s.log| && Live(connection)
    ensures ApplyEvent(GuiAt(s, n, connection, source), s.log[i]) == GuiAt(s, Max(n, i + 1), connection, source)
    ensures GuiAt(s, Max(n, i + 1), connection, source).connection == connection
    ensures GuiAt(s, Max(n, i + 1), connection, source).source == source
  {
    hide BigIntOf, ApplyEvent, ViewAt;
    if i < n {
      CoveredEvent(s, i, n, connection, source);
    } else {
      NextEventApplies(s, n, connection, source);
    }
  }

  lemma ReplyStep(w: World, connection: Connection, source: SourceKind)
    requires Inv(w) && w.sync.pending && w.cut.Some? && Live(connection)
    ensures Inv(Next(w, Reply(connection, source)))
    ensures var t := Next(w, Reply(connection, source));
            && !t.sync.pending && !t.sync.syncPending
            && (w.delivered - w.since <= BUFFER_LIMIT ==>
                  t.sync.gui == GuiAt(w.service, Max(w.cut.value, w.delivered), connection, source))
            && (w.delivered - w.since > BUFFER_LIMIT ==>
                  t.sync.gui == w.sync.gui.(connection := ResyncRequired))
  {
    hide BigIntOf, ApplyEvent, ApplyAll, ViewAt, Own, Continues;
    var t := Next(w, Reply(connection, source));
    if w.delivered - w.since <= BUFFER_LIMIT {
      ReplayOverSnapshot(w.service, w.since, w.delivered, w.cut.value, connection, source);
      assert ShowsAt(t, Max(w.cut.value, w.delivered));
    }
  }

  lemma PushStep(w: World, n: nat, connection: Connection, source: SourceKind)
    requires Inv(w)
    ensures Inv(Next(w, Push(n, connection, source)))
  {
    hide BigIntOf, ViewAt, Own, Continues;
    var t := Next(w, Push(n, connection, source));
    if w.delivered <= n <= |w.service.log| && Live(connection) {
      assert ShowsAt(t, n);
    }
  }

  lemma RefreshStep(w: World)
    requires Inv(w)
    ensures Inv(Next(w, Refresh))
  {
    hide BigIntOf, ViewAt, Own, Continues, GuiAt;
    var t := Next(w, Refresh);
    if Live(w.sync.gui.connection) {
      var n: nat :| ShowsAt(w, n);
      assert ShowsAt(t, n);
    }
  }

  lemma TakeSnapshotStep(w: World)
    requires Inv(w)
    ensures Inv(Next(w, TakeSnapshot))
  {
    hide BigIntOf, ViewAt, Own, Continues, GuiAt;
    var t := Next(w, TakeSnapshot);
    if Live(w.sync.gui.connection) {
      var n: nat :| ShowsAt(w, n);
      assert ShowsAt(t, n);
    }
  }

  lemma StepKeepsInv(w: World, step: Step)
    requires Inv(w)
    ensures Inv(Next(w, step))
  {
    hide BigIntOf, ViewAt, Own, Continues, GuiAt, ShowsAt, ValidService, ApplyEvent, ApplyAll;
    match step
    case Publish(id, body) =>
      if id in w.service.bases {
        PublishStep(w, id, body);
      }
    case Deliver => DeliverStep(w);
    case Refresh => RefreshStep(w);
    case TakeSnapshot => TakeSnapshotStep(w);
    case Reply(connection, source) =>
      if w.sync.pending && w.cut.Some? && Live(connection) {
        ReplyStep(w, connection, source);
      }
    case Push(n, connection, source) => PushStep(w, n, connection, source);
    case Refuse =>
    case Lose(_) =>
  }

  ghost predicate Reaches(first: World, steps: seq<Step>, last: World) {
    if steps == [] then first == last
    else exists w :: Reaches(first, steps[..|steps| - 1], w) && ValidService(w.service) && last == Next(w, steps[|steps| - 1])
  }

  /** The effect has just subscribed and nothing has reached it yet. */
  ghost predicate Initial(w: World) {
    ValidService(w.service) && w.delivered <= |w.service.log| && w.since == w.delivered && w.cut.None? && w.sync == MOUNTED
  }

  lemma {:induction false} InvAlways(first: World, steps: seq<Step>, last: World)
    requires Initial(first) && Reaches(first, steps, last)
    ensures Inv(last)
  {
    hide BigIntOf, ValidService, ShowsAt, GuiAt, Next;
    if steps != [] {
      var w :| Reaches(first, steps[..|steps| - 1], w) && ValidService(w.service) && last == Next(w, steps[|steps| - 1]);
      InvAlways(first, steps[..|steps| - 1], w);
      StepKeepsInv(w, steps[|steps| - 1]);
    }
  }

  /** No lost window. In any run, a refresh whose snapshot was taken at any moment between
      request and answer, and that saw no more than 2048 events meanwhile, leaves the view live
      at the later of the snapshot and the last delivered event. One that saw more installs
      nothing: the Sessions stay what they were and the view is frozen. */
  lemma NoLostWindow(first: World, steps: seq<Step>, w: World, connection: Connection, source: SourceKind)
    requires Initial(first) && Reaches(first, steps, w)
    requires w.sync.pending && w.cut.Some? && Live(connection)
    ensures ValidService(w.service) && w.since <= w.delivered <= |w.service.log| && w.cut.value <= |w.service.log|
    ensures var gui := Next(w, Reply(connection, source)).sync.gui;
            if w.delivered - w.since <= 2048
            then gui == GuiAt(w.service, Max(w.cut.value, w.delivered), connection, source)
            else gui == w.sync.gui.(connection := ResyncRequired)
  {
    hide BigIntOf, ValidService, ShowsAt, GuiAt, Next, Live;
    InvAlways(first, steps, w);
    ReplyStep(w, connection, source);
  }

  /** The window is open from the start: whatever the service, a client that has just subscribed can
      ask, and its snapshot be taken, before anything else happens. */
  lemma WindowOpens(first: World)
    requires Initial(first)
    ensures exists w :: Reaches(first, [Refresh, TakeSnapshot], w) && w.sync.pending && w.cut == Some(|w.service.log|)
  {
    hide BigIntOf, ValidService;
    var asked := Next(first, Refresh);
    assert Reaches(first, [], first);
    assert [Refresh][..0] == [] && [Refresh, TakeSnapshot][..1] == [Refresh];
    assert Reaches(first, [Refresh], asked);
    var taken := Next(asked, TakeSnapshot);
    assert Reaches(first, [Refresh, TakeSnapshot], taken);
  }

  /** No false gap. In any run the arrival of an event never freezes the view, and a view that
      is live and not waiting for a snapshot misses none of the delivered events. */
  lemma NoFalseGap(first: World, steps: seq<Step>, w: World)
    requires Initial(first) && Reaches(first, steps, w)
    ensures ValidService(w.service)
    ensures Next(w, Deliver).sync.gui.connection == w.sync.gui.connection
    ensures Live(w.sync.gui.connection) && !w.sync.pending ==>
              exists n: nat :: w.delivered <= n && ShowsAt(w, n)
  {
    hide BigIntOf, ValidService, GuiAt, Next;
    InvAlways(first, steps, w);
    DeliverStep(w);
  }

  /** The same latch over orderly runs. */
  lemma {:induction false} PendingIsLatched(first: World, steps: seq<Step>, w: World)
    requires Initial(first) && Reaches(first, steps, w)
    ensures w.sync.pending ==> w.sync.syncPending
    ensures (forall i :: 0 <= i < |steps| ==> !steps[i].Push?) ==> (w.sync.pending ==> w.sync.syncing)
  {
    hide ValidService, Next;
    if steps != [] {
      var n := |steps| - 1;
      var v :| Reaches(first, steps[..n], v) && ValidService(v.service) && w == Next(v, steps[n]);
      PendingIsLatched(first, steps[..n], v);
      LatchStep(v, steps[n]);
    }
  }

  lemma LatchStep(v: World, step: Step)
    requires ValidService(v.service)
    ensures var s, t := v.sync, Next(v, step).sync;
            && (s.pending && t.pending ==> t.syncPending == s.syncPending && (step.Push? || (s.syncing ==> t.syncing)))
            && (!s.pending && t.pending ==> t.syncPending && t.syncing)
  {
    hide ApplyEvent, ApplyAll, ValidService, Published;
  }
}
