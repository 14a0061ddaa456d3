/**
 When a Session's cursor goes back on screen. A pushed snapshot is installed at once, even while
 an answer is awaited (gui/src/App.tsx:170-172), and an answer is installed whatever is on screen
 (gui/src/App.tsx:134-140), so either may be older than the view. Nothing else ever takes a
 Session back.
 */
module GoingBack {
  import opened Options
  import opened Decimals
  import opened ClientState
  import opened EventService
  import opened SyncEffect
  import Lossy = LossyRuns
  import Ordered = OrderedRuns

  /** The number a Session's cursor names on screen. */
  function Number(gui: GuiState, id: string): Option<int> {
    if id in gui.sessions then BigIntOf(gui.sessions[id].cursor) else None
  }

  predicate GoesBack(before: GuiState, after: GuiState, id: string) {
    Number(before, id).Some? && Number(after, id).Some? && Number(after, id).value < Number(before, id).value
  }

  /** Every Session stays on screen, as it was or one event further. */
  ghost predicate KeepsUp(before: GuiState, after: GuiState) {
    forall id :: id in before.sessions ==>
                   && id in after.sessions
                   && (after.sessions[id] == before.sessions[id]
                       || (Number(before, id).Some? && Number(after, id) == Some(Number(before, id).value + 1)))
  }

  // ------------------------------------------------- nothing else goes back

  lemma EventKeepsUp(gui: GuiState, e: Event)
    ensures KeepsUp(gui, ApplyEvent(gui, e))
  {
    hide BigIntOf, ReduceRun;
  }

  /** Over the lossy channel, whatever the state: a step that installs no snapshot takes no Session
      back and none off the screen. */
  lemma OnlySnapshotsGoBack(w: Lossy.World, step: Lossy.Step)
    requires !step.Reply? && !step.Push?
    ensures KeepsUp(w.sync.gui, Lossy.Next(w, step).sync.gui)
    ensures forall id :: !GoesBack(w.sync.gui, Lossy.Next(w, step).sync.gui, id)
  {
    hide BigIntOf, ApplyEvent, ValidService, Published;
    if step.Deliver? && step.generation in w.services && step.position < |w.services[step.generation].log| {
      EventKeepsUp(w.sync.gui, w.services[step.generation].log[step.position]);
    }
  }

  /** The same over the orderly channel. */
  lemma OnlySnapshotsGoBackInOrder(w: Ordered.World, step: Ordered.Step)
    requires ValidService(w.service) && !step.Reply? && !step.Push?
    ensures KeepsUp(w.sync.gui, Ordered.Next(w, step).sync.gui)
    ensures forall id :: !GoesBack(w.sync.gui, Ordered.Next(w, step).sync.gui, id)
  {
    hide BigIntOf, ApplyEvent, ValidService, Published;
    if step.Deliver? && w.delivered < |w.service.log| {
      EventKeepsUp(w.sync.gui, w.service.log[w.delivered]);
    }
  }

  // ------------------------------------------------------------- a snapshot

  /** Where a Session stands in a snapshot. */
  lemma SnapshotNumber(s: Service, g: string, n: nat, connection: Connection, source: SourceKind, id: string)
    requires ValidService(s) && n <= |s.log|
    ensures var gui := InstallSnapshot(Snapshot(g, connection, source, ViewAt(s, n)));
            && (id in gui.sessions <==> id in s.bases)
            && (id in s.bases ==> Number(gui, id) == Some(CursorNumber(s.bases[id]) + |Own(s.log[..n], id)|))
  {
    hide BigIntOf, ViewAt, ById, SessionAt, Own, Continues, ValidBases;
    ViewById(s, n);
    if id in s.bases {
      SessionAtIsReplay(s, id, n);
    }
  }

  /** In every lossy run a push takes a Session back exactly when the pushed view has it at a lower
      number; a push of the generation on screen, exactly when fewer of the Session's own events
      are in it than the Session on screen has folded. */
  lemma PushGoesBack(steps: seq<Lossy.Step>, g: string, n: nat, connection: Connection, source: SourceKind, id: string)
    requires var w := Lossy.Run(steps);
             w.sync.active && Lossy.CanView(w.services, g, n) && id in w.sync.gui.sessions
    ensures var w := Lossy.Run(steps);
            var s, shown, after := w.services[g], Number(w.sync.gui, id), Lossy.Next(w, Lossy.Push(g, n, connection, source)).sync.gui;
            && shown.Some?
            && (GoesBack(w.sync.gui, after, id) <==>
                id in s.bases && CursorNumber(s.bases[id]) + |Own(s.log[..n], id)| < shown.value)
            && (g == w.sync.gui.generation ==>
                  && id in s.bases && 0 <= shown.value - CursorNumber(s.bases[id]) <= |Own(s.log, id)|
                  && (GoesBack(w.sync.gui, after, id) <==> |Own(s.log[..n], id)| < shown.value - CursorNumber(s.bases[id])))
  {
    hide BigIntOf, ViewAt, ById, Own, ValidService, Lossy.Run, InstallSnapshot;
    Lossy.AgreementOverEveryRun(steps);
    var w := Lossy.Run(steps);
    SnapshotNumber(w.services[g], g, n, connection, source, id);
    var k: nat :| Lossy.Folded(w.services[w.sync.gui.generation], w.sync.gui.sessions[id], k);
  }

  lemma {:induction false} ReplayKeepsUp(gui: GuiState, events: seq<Event>, id: string)
    requires Number(gui, id).Some?
    ensures Number(ApplyAll(gui, events), id).Some? && Number(ApplyAll(gui, events), id).value >= Number(gui, id).value
  {
    hide BigIntOf, ApplyEvent;
    if events != [] {
      ReplayKeepsUp(gui, events[..|events| - 1], id);
      EventKeepsUp(ApplyAll(gui, events[..|events| - 1]), events[|events| - 1]);
    }
  }

  lemma {:induction false} ReplayAtMost(gui: GuiState, events: seq<Event>, id: string)
    requires Number(gui, id).Some?
    ensures Number(ApplyAll(gui, events), id).Some?
    ensures Number(ApplyAll(gui, events), id).value <= Number(gui, id).value + |Own(events, id)|
  {
    hide BigIntOf, ApplyEvent;
    if events != [] {
      var n := |events| - 1;
      ReplayAtMost(gui, events[..n], id);
      EventKeepsUp(ApplyAll(gui, events[..n]), events[n]);
      if events[n].sessionId != id {
        OnlyItsOwn(ApplyAll(gui, events[..n]), events[n], id);
      }
    }
  }

  lemma OnlyItsOwn(gui: GuiState, e: Event, id: string)
    requires id != e.sessionId
    ensures Number(ApplyEvent(gui, e), id) == Number(gui, id)
  {
    hide BigIntOf, ReduceSession;
  }

  /** An answer over the lossy channel, whatever was buffered. The replay never ends below the
      snapshot, so a Session can go back only if the snapshot has it behind the screen; it never
      adds more than the Session's buffered events, so one that they cannot make up for does go
      back. Where none is buffered the first condition is exact. */
  lemma AnswerGoesBack(steps: seq<Lossy.Step>, g: string, n: nat, connection: Connection, source: SourceKind, id: string)
    requires var w := Lossy.Run(steps);
             w.sync.active && w.sync.pending && Lossy.CanView(w.services, g, n) && id in w.sync.gui.sessions
    ensures var w := Lossy.Run(steps);
            var s, shown, after := w.services[g], Number(w.sync.gui, id), Lossy.Next(w, Lossy.Reply(g, n, connection, source)).sync.gui;
            && shown.Some?
            && (w.sync.overflow ==> !GoesBack(w.sync.gui, after, id))
            && (!w.sync.overflow && id in s.bases ==>
                  var taken := CursorNumber(s.bases[id]) + |Own(s.log[..n], id)|;
                  && (GoesBack(w.sync.gui, after, id) ==> taken < shown.value)
                  && (taken + |Own(w.sync.buffered, id)| < shown.value ==> GoesBack(w.sync.gui, after, id))
                  && (Own(w.sync.buffered, id) == [] ==> (GoesBack(w.sync.gui, after, id) <==> taken < shown.value)))
  {
    hide BigIntOf, Own, ValidService, GoesBack, Number, Lossy.Run, Lossy.Next, Lossy.CanView;
    ShownIsReadable(steps, id);
    AnswerMoves(Lossy.Run(steps), g, n, connection, source, id);
  }

  /** In every lossy run the cursor of a Session on screen names a number. */
  lemma ShownIsReadable(steps: seq<Lossy.Step>, id: string)
    requires id in Lossy.Run(steps).sync.gui.sessions
    ensures Number(Lossy.Run(steps).sync.gui, id).Some? && Lossy.ValidServices(Lossy.Run(steps).services)
  {
    hide BigIntOf, ValidService, Lossy.Run;
    Lossy.AgreementOverEveryRun(steps);
    var w := Lossy.Run(steps);
    var k: nat :| Lossy.Folded(w.services[w.sync.gui.generation], w.sync.gui.sessions[id], k);
  }

  lemma AnswerMoves(w: Lossy.World, g: string, n: nat, connection: Connection, source: SourceKind, id: string)
    requires w.sync.active && w.sync.pending && Lossy.CanView(w.services, g, n) && Number(w.sync.gui, id).Some?
    ensures var s, shown, after := w.services[g], Number(w.sync.gui, id), Lossy.Next(w, Lossy.Reply(g, n, connection, source)).sync.gui;
            && (w.sync.overflow ==> !GoesBack(w.sync.gui, after, id))
            && (!w.sync.overflow && id in s.bases ==>
                  var taken := CursorNumber(s.bases[id]) + |Own(s.log[..n], id)|;
                  && (GoesBack(w.sync.gui, after, id) ==> taken < shown.value)
                  && (taken + |Own(w.sync.buffered, id)| < shown.value ==> GoesBack(w.sync.gui, after, id))
                  && (Own(w.sync.buffered, id) == [] ==> (GoesBack(w.sync.gui, after, id) <==> taken < shown.value)))
  {
    hide BigIntOf, ViewAt, Own, ValidService, InstallSnapshot, ApplyAll, CursorNumber, Lossy.Next;
    var s := w.services[g];
    AfterTheAnswer(w, g, n, connection, source);
    if !w.sync.overflow && id in s.bases {
      SnapshotNumber(s, g, n, connection, source, id);
      ReplayKeepsUp(InstallSnapshot(Snapshot(g, connection, source, ViewAt(s, n))), w.sync.buffered, id);
      ReplayAtMost(InstallSnapshot(Snapshot(g, connection, source, ViewAt(s, n))), w.sync.buffered, id);
    }
  }

  lemma AfterTheAnswer(w: Lossy.World, g: string, n: nat, connection: Connection, source: SourceKind)
    requires w.sync.active && w.sync.pending && Lossy.CanView(w.services, g, n)
    ensures var after := Lossy.Next(w, Lossy.Reply(g, n, connection, source)).sync.gui;
            if w.sync.overflow then after.sessions == w.sync.gui.sessions
            else after == ApplyAll(InstallSnapshot(Snapshot(g, connection, source, ViewAt(w.services[g], n))), w.sync.buffered)
  {
    hide ViewAt, ValidService, InstallSnapshot, ApplyAll;
  }

  // ---------------------------------------------------- the orderly channel

  /** The Sessions on screen are the service's after its first `n` events. */
  ghost predicate Stands(w: Ordered.World, n: nat) {
    && ValidService(w.service) && n <= |w.service.log|
    && w.sync.gui.generation == w.service.generation
    && w.sync.gui.sessions == map id | id in w.service.bases :: SessionAt(w.service, id, n)
  }

  ghost predicate StandsOrEmpty(w: Ordered.World) {
    w.sync.gui.sessions == map[] || exists n: nat :: Stands(w, n)
  }

  lemma InstalledStands(w: Ordered.World, n: nat, connection: Connection, source: SourceKind)
    requires ValidService(w.service) && n <= |w.service.log|
    requires w.sync.gui == Ordered.GuiAt(w.service, n, connection, source)
    ensures Stands(w, n)
  {
    hide ValidService, SessionAt, ViewAt, ById;
    Ordered.SessionsAt(w.service, n, connection, source);
  }

  lemma PublishStands(w: Ordered.World, n: nat, id: string, body: Body)
    requires Stands(w, n) && id in w.service.bases
    ensures Stands(Ordered.Next(w, Ordered.Publish(id, body)), n)
  {
    hide Continues, Own, Replay, BigIntOf, Print;
    PublishedIsValid(w.service, id, body);
    var t := Published(w.service, id, body);
    assert t.log[..n] == w.service.log[..n];
    forall x | x in w.service.bases ensures SessionAt(t, x, n) == SessionAt(w.service, x, n) {
    }
  }

  lemma StepStands(w: Ordered.World, step: Ordered.Step)
    requires Ordered.Inv(w) && StandsOrEmpty(w)
    ensures StandsOrEmpty(Ordered.Next(w, step))
  {
    hide ValidService, SessionAt, ViewAt, ById, BigIntOf, ApplyEvent, ApplyAll, Published, Own;
    var t := Ordered.Next(w, step);
    if step.Publish? {
      if step.sessionId in w.service.bases && w.sync.gui.sessions != map[] {
        var n: nat :| Stands(w, n);
        PublishStands(w, n, step.sessionId, step.body);
        assert Stands(t, n);
      }
    } else if step.Deliver? && w.delivered < |w.service.log| && !w.sync.pending && Ordered.Live(w.sync.gui.connection) {
      DeliverStands(w);
    } else if step.Deliver? && w.delivered < |w.service.log| && !w.sync.pending {
      FrozenStays(w.sync.gui, w.service.log[w.delivered]);
      SameScreen(w, t);
    } else if step.Reply? && w.sync.pending && w.cut.Some? && Ordered.Live(step.connection) {
      ReplyStands(w, step.connection, step.source);
    } else if step.Push? && w.delivered <= step.seen <= |w.service.log| && Ordered.Live(step.connection) {
      InstalledStands(t, step.seen, step.connection, step.source);
    } else {
      SameScreen(w, t);
    }
  }

  lemma SameScreen(w: Ordered.World, t: Ordered.World)
    requires StandsOrEmpty(w) && t.service == w.service
    requires t.sync.gui.sessions == w.sync.gui.sessions && t.sync.gui.generation == w.sync.gui.generation
    ensures StandsOrEmpty(t)
  {
    if w.sync.gui.sessions != map[] {
      var n: nat :| Stands(w, n);
      assert Stands(t, n);
    }
  }

  lemma FrozenStays(gui: GuiState, e: Event)
    requires !Ordered.Live(gui.connection)
    ensures ApplyEvent(gui, e) == gui
  {
  }

  lemma DeliverStands(w: Ordered.World)
    requires Ordered.Inv(w) && w.delivered < |w.service.log| && !w.sync.pending && Ordered.Live(w.sync.gui.connection)
    ensures StandsOrEmpty(Ordered.Next(w, Ordered.Deliver))
  {
    hide ValidService, SessionAt, ViewAt, ById, BigIntOf, ApplyEvent, InstallSnapshot;
    var n: nat :| Ordered.ShowsAt(w, n);
    var connection, source := w.sync.gui.connection, w.sync.gui.source;
    Ordered.DeliverOne(w.service, w.delivered, n, connection, source);
    InstalledStands(Ordered.Next(w, Ordered.Deliver), Ordered.Max(n, w.delivered + 1), connection, source);
  }

  lemma ReplyStands(w: Ordered.World, connection: Connection, source: SourceKind)
    requires Ordered.Inv(w) && StandsOrEmpty(w) && w.sync.pending && w.cut.Some? && Ordered.Live(connection)
    ensures StandsOrEmpty(Ordered.Next(w, Ordered.Reply(connection, source)))
    ensures Ordered.Next(w, Ordered.Reply(connection, source)).service == w.service
    ensures w.delivered - w.since <= BUFFER_LIMIT ==>
              Stands(Ordered.Next(w, Ordered.Reply(connection, source)), Ordered.Max(w.cut.value, w.delivered))
  {
    hide ValidService, SessionAt, ViewAt, ById, BigIntOf, ApplyEvent, ApplyAll, InstallSnapshot;
    Ordered.ReplyStep(w, connection, source);
    var t := Ordered.Next(w, Ordered.Reply(connection, source));
    if w.delivered - w.since <= BUFFER_LIMIT {
      InstalledStands(t, Ordered.Max(w.cut.value, w.delivered), connection, source);
    } else {
      SameScreen(w, t);
    }
  }

  /** In every orderly run, frozen or not, the screen is empty or shows the service after some
      number of its events. */
  lemma {:induction false} StandsSomewhere(first: Ordered.World, steps: seq<Ordered.Step>, w: Ordered.World)
    requires Ordered.Initial(first) && Ordered.Reaches(first, steps, w)
    ensures StandsOrEmpty(w)
  {
    hide StandsOrEmpty, ValidService, Ordered.Next, Ordered.Inv;
    if steps == [] {
      EmptyAtFirst(first);
    } else {
      var v :| Ordered.Reaches(first, steps[..|steps| - 1], v) && ValidService(v.service) && w == Ordered.Next(v, steps[|steps| - 1]);
      StandsSomewhere(first, steps[..|steps| - 1], v);
      Ordered.InvAlways(first, steps[..|steps| - 1], v);
      StepStands(v, steps[|steps| - 1]);
    }
  }

  lemma EmptyAtFirst(first: Ordered.World)
    requires Ordered.Initial(first)
    ensures StandsOrEmpty(first)
  {
  }

  // -------------------------------------------------- how far a view has got

  lemma OwnGrows(log: seq<Event>, m: nat, n: nat, id: string)
    requires m <= n <= |log|
    ensures |Own(log[..m], id)| <= |Own(log[..n], id)|
  {
    hide Own;
    assert log[..n][..m] == log[..m];
    OwnPrefix(log[..n], m, id);
  }

  lemma SomeoneMoves(log: seq<Event>, m: nat, n: nat)
    requires m < n <= |log|
    ensures |Own(log[..m], log[m].sessionId)| < |Own(log[..n], log[m].sessionId)|
  {
    hide Own;
    var id := log[m].sessionId;
    assert log[..m + 1] == log[..m] + [log[m]];
    OwnAppend(log[..m], log[m], id);
    OwnGrows(log, m + 1, n, id);
  }

  /** From one point of the log to another: a Session goes back exactly when the other point has
      fewer of its events, and some Session does exactly when the other point is earlier. */
  lemma BetweenPoints(w: Ordered.World, t: Ordered.World, n: nat, m: nat)
    requires Stands(w, n) && Stands(t, m) && t.service == w.service
    ensures forall id :: id in w.service.bases ==>
              (GoesBack(w.sync.gui, t.sync.gui, id) <==> |Own(w.service.log[..m], id)| < |Own(w.service.log[..n], id)|)
    ensures (exists id :: id in w.service.bases && GoesBack(w.sync.gui, t.sync.gui, id)) <==> m < n
  {
    hide BigIntOf, ValidBases, SessionAt, Own, Print;
    var s := w.service;
    forall id | id in s.bases
      ensures GoesBack(w.sync.gui, t.sync.gui, id) <==> |Own(s.log[..m], id)| < |Own(s.log[..n], id)|
      ensures m >= n ==> !GoesBack(w.sync.gui, t.sync.gui, id)
    {
      SessionAtIsReplay(s, id, n);
      SessionAtIsReplay(s, id, m);
      if n <= m {
        OwnGrows(s.log, n, m, id);
      }
    }
    if m < n {
      assert Continues(s, m);
      SomeoneMoves(s.log, m, n);
    }
  }

  /** In every orderly run an answer within the buffer moves the view to the later of its snapshot
      and the last delivered event. So some Session goes back exactly when the view stood past
      both, and a given Session exactly when it has events in between. */
  lemma OrderlyAnswerGoesBack(first: Ordered.World, steps: seq<Ordered.Step>, w: Ordered.World, n: nat,
                              connection: Connection, source: SourceKind)
    requires Ordered.Initial(first) && Ordered.Reaches(first, steps, w) && Stands(w, n)
    requires w.sync.pending && w.cut.Some? && Ordered.Live(connection) && w.delivered - w.since <= BUFFER_LIMIT
    ensures var t, m := Ordered.Next(w, Ordered.Reply(connection, source)), Ordered.Max(w.cut.value, w.delivered);
            && Stands(t, m)
            && (forall id :: id in w.service.bases ==>
                  (GoesBack(w.sync.gui, t.sync.gui, id) <==> |Own(w.service.log[..m], id)| < |Own(w.service.log[..n], id)|))
            && ((exists id :: id in w.service.bases && GoesBack(w.sync.gui, t.sync.gui, id)) <==> m < n)
  {
    hide Stands, GoesBack, ValidService, Own, Ordered.Next;
    Ordered.InvAlways(first, steps, w);
    ReplyStands(w, connection, source);
    BetweenPoints(w, Ordered.Next(w, Ordered.Reply(connection, source)), n, Ordered.Max(w.cut.value, w.delivered));
  }

  /** The same for a push: some Session goes back exactly when the pushed point is earlier. */
  lemma OrderlyPushGoesBack(w: Ordered.World, n: nat, m: nat, connection: Connection, source: SourceKind)
    requires Stands(w, n) && w.sync.active && w.delivered <= m <= |w.service.log| && Ordered.Live(connection)
    ensures var t := Ordered.Next(w, Ordered.Push(m, connection, source));
            && Stands(t, m)
            && (forall id :: id in w.service.bases ==>
                  (GoesBack(w.sync.gui, t.sync.gui, id) <==> |Own(w.service.log[..m], id)| < |Own(w.service.log[..n], id)|))
            && ((exists id :: id in w.service.bases && GoesBack(w.sync.gui, t.sync.gui, id)) <==> m < n)
  {
    hide GoesBack, ValidService, Own, SessionAt, ViewAt, ById;
    var t := Ordered.Next(w, Ordered.Push(m, connection, source));
    InstalledStands(t, m, connection, source);
    BetweenPoints(w, t, n, m);
  }

  // ------------------------------------------------------------ and it happens

  /** The snapshot is taken, an event is published, a push brings it, and then the answer comes. */
  function OvertakenAnswer(id: string, body: Body, seen: nat): seq<Ordered.Step> {
    [Ordered.Refresh, Ordered.TakeSnapshot, Ordered.Publish(id, body), Ordered.Push(seen, Connected, Live),
     Ordered.Reply(Connected, Live)]
  }

  /** Whatever the service and whichever of its Sessions publishes: an answer overtaken by a push
      takes that Session back on screen. */
  lemma ViewGoesBack(first: Ordered.World, id: string, body: Body)
    requires Ordered.Initial(first) && id in first.service.bases
    ensures var steps := OvertakenAnswer(id, body, |first.service.log| + 1);
            exists w, v :: Ordered.Reaches(first, steps[..4], w) && Ordered.Reaches(first, steps, v)
                           && GoesBack(w.sync.gui, v.sync.gui, id)
  {
    hide ValidService, Stands, GoesBack, Own, Ordered.Next, Ordered.Reaches;
    var n := |first.service.log|;
    var pushed := BeforeTheAnswer(first, id, body);
    OrderlyAnswerGoesBack(first, OvertakenAnswer(id, body, n + 1)[..4], pushed, n + 1, Connected, Live);
    SomeoneMoves(pushed.service.log, n, n + 1);
  }

  /** The run up to the answer. */
  lemma BeforeTheAnswer(first: Ordered.World, id: string, body: Body) returns (pushed: Ordered.World)
    requires Ordered.Initial(first) && id in first.service.bases
    ensures var n := |first.service.log|;
            var steps := OvertakenAnswer(id, body, n + 1);
            && ValidService(pushed.service) && Stands(pushed, n + 1)
            && Ordered.Reaches(first, steps[..4], pushed)
            && Ordered.Reaches(first, steps, Ordered.Next(pushed, Ordered.Reply(Connected, Live)))
            && pushed.sync.pending && pushed.cut == Some(n) && pushed.delivered == pushed.since <= n
            && pushed.service.bases == first.service.bases
            && |pushed.service.log| == n + 1 && pushed.service.log[n].sessionId == id
  {
    hide ValidService, Stands, ViewAt, ById, Own, InstallSnapshot;
    var n := |first.service.log|;
    var asked := Ordered.Next(first, Ordered.Refresh);
    var taken := Ordered.Next(asked, Ordered.TakeSnapshot);
    PublishedIsValid(first.service, id, body);
    var told := Ordered.Next(taken, Ordered.Publish(id, body));
    pushed := Ordered.Next(told, Ordered.Push(n + 1, Connected, Live));
    PushedStands(told, n + 1);
    FiveSteps(first, OvertakenAnswer(id, body, n + 1), asked, taken, told, pushed,
              Ordered.Next(pushed, Ordered.Reply(Connected, Live)));
  }

  lemma PushedStands(w: Ordered.World, n: nat)
    requires ValidService(w.service) && w.sync.active && w.delivered <= n <= |w.service.log|
    ensures Stands(Ordered.Next(w, Ordered.Push(n, Connected, Live)), n)
  {
    hide ValidService, SessionAt, ViewAt, ById;
    InstalledStands(Ordered.Next(w, Ordered.Push(n, Connected, Live)), n, Connected, Live);
  }

  lemma FiveSteps(a: Ordered.World, steps: seq<Ordered.Step>, b: Ordered.World, c: Ordered.World, d: Ordered.World,
                  e: Ordered.World, f: Ordered.World)
    requires |steps| == 5
    requires ValidService(a.service) && b == Ordered.Next(a, steps[0])
    requires ValidService(b.service) && c == Ordered.Next(b, steps[1])
    requires ValidService(c.service) && d == Ordered.Next(c, steps[2])
    requires ValidService(d.service) && e == Ordered.Next(d, steps[3])
    requires ValidService(e.service) && f == Ordered.Next(e, steps[4])
    ensures Ordered.Reaches(a, steps[..4], e) && Ordered.Reaches(a, steps, f)
  {
    hide ValidService, Ordered.Next;
    assert Ordered.Reaches(a, [], a);
    assert steps[..1][..0] == [] && steps[..2][..1] == steps[..1] && steps[..3][..2] == steps[..2];
    assert steps[..4][..3] == steps[..3];
    assert Ordered.Reaches(a, steps[..1], b);
    assert Ordered.Reaches(a, steps[..2], c);
    assert Ordered.Reaches(a, steps[..3], d);
    assert Ordered.Reaches(a, steps[..4], e);
  }
}
