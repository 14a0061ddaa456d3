/**
 Every run of the live view over a channel that may lose, repeat, reorder and delay
 events and may answer with any snapshot some service once held, old or new.
 */
module LossyRuns {
  import opened Options
  import opened Decimals
  import opened ClientState
  import opened EventService
  import opened SyncEffect

  datatype World = World(services: map<string, Service>, sync: Sync)

  datatype Step =
    | StartService(service: Service)
    | Publish(generation: string, sessionId: string, body: Body)
    | Deliver(generation: string, position: nat)
    | Refresh
    | Reply(generation: string, seen: nat, connection: Connection, source: SourceKind)
    | Refuse
    | Push(generation: string, seen: nat, connection: Connection, source: SourceKind)
    | Lose(connection: Connection)
    | Dispose

  ghost predicate ValidServices(services: map<string, Service>) {
    forall g :: g in services ==> services[g].generation == g && ValidService(services[g])
  }

  ghost predicate CanView(services: map<string, Service>, generation: string, seen: nat) {
    generation in services && ValidService(services[generation]) && seen <= |services[generation].log|
  }

  /** The answer a service gave when its log held `seen` events. */
  ghost function Seen(services: map<string, Service>, generation: string, seen: nat,
                      connection: Connection, source: SourceKind): Snapshot
    requires CanView(services, generation, seen)
  {
    Snapshot(generation, connection, source, ViewAt(services[generation], seen))
  }

  /** One step; a step that is not possible changes nothing. */
  ghost function Next(w: World, step: Step): World {
    match step
    case StartService(s) =>
      if s.generation in w.services || !ValidService(s) then w
      else w.(services := w.services[s.generation := s])
    case Publish(g, id, body) =>
      if g !in w.services || !ValidService(w.services[g]) || id !in w.services[g].bases then w
      else w.(services := w.services[g := Published(w.services[g], id, body)])
    case Deliver(g, i) =>
      if g !in w.services || i >= |w.services[g].log| then w
      else w.(sync := EventArrived(w.sync, w.services[g].log[i]))
    case Refresh => w.(sync := StartRefresh(w.sync))
    case Reply(g, n, connection, source) =>
      if !w.sync.pending || !CanView(w.services, g, n) then w
      else w.(sync := SnapshotArrived(w.sync, Seen(w.services, g, n, connection, source)))
    case Refuse => if !w.sync.pending then w else w.(sync := SnapshotRefused(w.sync))
    case Push(g, n, connection, source) =>
      if !CanView(w.services, g, n) then w
      else w.(sync := SnapshotPushed(w.sync, Seen(w.services, g, n, connection, source)))
    case Lose(connection) =>
      if connection.Disconnected? || connection.ResyncRequired? then w.(sync := ConnectionLost(w.sync, connection)) else w
    case Dispose => w.(sync := Disposed(w.sync))
  }

  ghost function Run(steps: seq<Step>): World {
    if steps == [] then World(map[], MOUNTED) else Next(Run(steps[..|steps| - 1]), steps[|steps| - 1])
  }

  // -------------------------------------------------------------- agreement

  /** How many of its events a Session has folded, judged by its own cursor. */
  ghost predicate Folded(s: Service, session: Session, k: nat) {
    && session.id in s.bases
    && k <= |Own(s.log, session.id)|
    && BigIntOf(session.cursor) == Some(CursorNumber(s.bases[session.id]) + k)
    && session == Replay(s.bases[session.id], Own(s.log, session.id)[..k])
  }

  /** The Sessions a client shows are folds of the log of the generation it shows, each up to
      that Session's own cursor. */
  ghost predicate Agrees(services: map<string, Service>, gui: GuiState) {
    forall id :: id in gui.sessions ==>
                   && gui.generation in services
                   && gui.sessions[id].id == id
                   && exists k: nat :: Folded(services[gui.generation], gui.sessions[id], k)
  }

  ghost predicate WasPublished(services: map<string, Service>, e: Event) {
    e.generation in services && e in services[e.generation].log
  }

  ghost predicate Inv(w: World) {
    && ValidServices(w.services)
    && Agrees(w.services, w.sync.gui)
    && forall i :: 0 <= i < |w.sync.buffered| ==> WasPublished(w.services, w.sync.buffered[i])
  }

  lemma InstalledAgrees(services: map<string, Service>, g: string, n: nat, connection: Connection, source: SourceKind)
    requires ValidServices(services) && CanView(services, g, n)
    ensures Agrees(services, InstallSnapshot(Seen(services, g, n, connection, source)))
  {
    hide BigIntOf, ReduceSession, Replay, Own, ById;
    var s := services[g];
    var gui := InstallSnapshot(Seen(services, g, n, connection, source));
    ViewById(s, n);
    forall id | id in gui.sessions
      ensures gui.sessions[id].id == id && exists k: nat :: Folded(s, gui.sessions[id], k)
    {
      SessionAtIsReplay(s, id, n);
      assert Folded(s, gui.sessions[id], |Own(s.log[..n], id)|);
    }
  }

  /** The next contiguous event of a Session is the next entry of its log. */
  lemma NextIsNext(s: Service, session: Session, k: nat, e: Event)
    requires ValidService(s) && Folded(s, session, k)
    requires e in s.log && e.sessionId == session.id
    requires BigIntOf(e.cursor) == Some(CursorNumber(s.bases[session.id]) + k + 1)
    ensures Folded(s, ReduceSession(session, e), k + 1)
    ensures ReduceSession(session, e).id == session.id
  {
    hide BigIntOf, ReduceSession, Print, Continues, Own, Replay;
    var id, own := session.id, Own(s.log, session.id);
    var i :| 0 <= i < |s.log| && s.log[i] == e;
    OwnPosition(s.log, i);
    var j := |Own(s.log[..i], id)|;
    OwnCursor(s, id, j);
    assert own[..k + 1] == own[..k] + [own[k]];
    ReplayAppend(s.bases[id], own[..k], e);
    ReplayKeepsId(s.bases[id], own[..k + 1]);
  }

  /** An event that changes the Sessions on screen is the next one of the Session it names. */
  lemma AppliedIsNext(gui: GuiState, e: Event)
    requires ApplyEvent(gui, e).sessions != gui.sessions
    ensures e.generation == gui.generation && e.sessionId in gui.sessions
    ensures var session := gui.sessions[e.sessionId];
            && BigIntOf(session.cursor).Some? && BigIntOf(e.cursor) == Some(BigIntOf(session.cursor).value + 1)
            && ApplyEvent(gui, e) == gui.(sessions := gui.sessions[e.sessionId := ReduceSession(session, e)])
  {
    hide BigIntOf, ReduceSession;
  }

  lemma AppliedAgrees(services: map<string, Service>, gui: GuiState, e: Event)
    requires ValidServices(services) && Agrees(services, gui) && WasPublished(services, e)
    ensures Agrees(services, ApplyEvent(gui, e))
  {
    hide BigIntOf, ReduceSession, ApplyEvent, Own, Replay, Continues, ValidBases;
    if ApplyEvent(gui, e).sessions == gui.sessions {
      SameGeneration(gui, e);
    } else {
      AppliedIsNext(gui, e);
      var s, session := services[gui.generation], gui.sessions[e.sessionId];
      var k: nat :| Folded(s, session, k);
      NextIsNext(s, session, k, e);
      hide Folded;
      assert Folded(s, ReduceSession(session, e), k + 1);
      OneFurther(services, gui, e.sessionId, ReduceSession(session, e), k + 1);
    }
  }

  lemma SameGeneration(gui: GuiState, e: Event)
    ensures ApplyEvent(gui, e).generation == gui.generation
  {
  }

  lemma OneFurther(services: map<string, Service>, gui: GuiState, id: string, session: Session, k: nat)
    requires Agrees(services, gui) && gui.generation in services && session.id == id
    requires Folded(services[gui.generation], session, k)
    ensures Agrees(services, gui.(sessions := gui.sessions[id := session]))
  {
    hide Folded;
  }

  lemma {:induction false} ReplayedAgrees(services: map<string, Service>, gui: GuiState, events: seq<Event>)
    requires ValidServices(services) && Agrees(services, gui)
    requires forall i :: 0 <= i < |events| ==> WasPublished(services, events[i])
    ensures Agrees(services, ApplyAll(gui, events))
  {
    if events != [] {
      ReplayedAgrees(services, gui, events[..|events| - 1]);
      AppliedAgrees(services, ApplyAll(gui, events[..|events| - 1]), events[|events| - 1]);
    }
  }

  lemma StaysFolded(s: Service, id: string, body: Body, session: Session, k: nat)
    requires id in s.bases && CursorNumber(s.bases[id]) >= 0 && Folded(s, session, k)
    ensures Folded(Published(s, id, body), session, k)
  {
    hide BigIntOf, Replay, Own, NextEvent;
    OwnAppend(s.log, NextEvent(s, id, body), session.id);
    assert Own(Published(s, id, body).log, session.id)[..k] == Own(s.log, session.id)[..k];
  }

  /** Publishing more never invalidates what a client already shows. */
  lemma PublishingAgrees(services: map<string, Service>, g: string, id: string, body: Body, gui: GuiState)
    requires ValidServices(services) && g in services && id in services[g].bases
    requires Agrees(services, gui)
    ensures Agrees(services[g := Published(services[g], id, body)], gui)
  {
    hide BigIntOf, Folded, Published, Continues;
    var after := services[g := Published(services[g], id, body)];
    forall x | x in gui.sessions
      ensures exists k: nat :: Folded(after[gui.generation], gui.sessions[x], k)
    {
      var k: nat :| Folded(services[gui.generation], gui.sessions[x], k);
      if gui.generation == g {
        StaysFolded(services[g], id, body, gui.sessions[x], k);
      }
      assert Folded(after[gui.generation], gui.sessions[x], k);
    }
  }

  lemma StartingAgrees(services: map<string, Service>, s: Service, gui: GuiState)
    requires s.generation !in services && Agrees(services, gui)
    ensures Agrees(services[s.generation := s], gui)
  {
    hide BigIntOf, Folded;
    var after := services[s.generation := s];
    forall id | id in gui.sessions
      ensures exists k: nat :: Folded(after[gui.generation], gui.sessions[id], k)
    {
      var k: nat :| Folded(services[gui.generation], gui.sessions[id], k);
      assert Folded(after[gui.generation], gui.sessions[id], k);
    }
  }

  lemma ServiceStepKeepsInv(w: World, step: Step)
    requires Inv(w) && (step.StartService? || step.Publish?)
    ensures Inv(Next(w, step))
  {
    hide BigIntOf, Agrees, NextEvent, Continues, ValidBases;
    match step
    case StartService(s) =>
      if s.generation !in w.services {
        StartingAgrees(w.services, s, w.sync.gui);
      }
    case Publish(g, id, body) =>
      if g in w.services && id in w.services[g].bases {
        PublishedIsValid(w.services[g], id, body);
        PublishingAgrees(w.services, g, id, body, w.sync.gui);
      }
  }

  lemma DeliverKeepsInv(w: World, g: string, i: nat)
    requires Inv(w)
    ensures Inv(Next(w, Deliver(g, i)))
  {
    hide BigIntOf, Agrees, ApplyEvent, Own, Print;
    if g in w.services && i < |w.services[g].log| {
      assert Continues(w.services[g], i);
      AppliedAgrees(w.services, w.sync.gui, w.services[g].log[i]);
    }
  }

  lemma SnapshotKeepsInv(w: World, g: string, n: nat, connection: Connection, source: SourceKind)
    requires Inv(w)
    ensures Inv(Next(w, Reply(g, n, connection, source))) && Inv(Next(w, Push(g, n, connection, source)))
  {
    hide BigIntOf, ApplyEvent, ApplyAll, Folded, ViewAt, Continues, ValidBases;
    if CanView(w.services, g, n) {
      InstalledAgrees(w.services, g, n, connection, source);
      ReplayedAgrees(w.services, InstallSnapshot(Seen(w.services, g, n, connection, source)), w.sync.buffered);
    }
  }

  lemma QuietKeepsInv(w: World, step: Step)
    requires Inv(w) && (step.Refresh? || step.Refuse? || step.Lose? || step.Dispose?)
    ensures Inv(Next(w, step))
  {
    hide ValidServices, Folded;
  }

  lemma StepKeepsInv(w: World, step: Step)
    requires Inv(w)
    ensures Inv(Next(w, step))
  {
    hide Inv, Next;
    match step
    case StartService(_) => ServiceStepKeepsInv(w, step);
    case Publish(_, _, _) => ServiceStepKeepsInv(w, step);
    case Deliver(g, i) => DeliverKeepsInv(w, g, i);
    case Reply(g, n, connection, source) => SnapshotKeepsInv(w, g, n, connection, source);
    case Push(g, n, connection, source) => SnapshotKeepsInv(w, g, n, connection, source);
    case _ => QuietKeepsInv(w, step);
  }

  /** Agreement over every run: whatever was lost, repeated, reordered, delayed, refused or
      answered late, every Session on screen is the fold of the published log of the
      generation on screen, up to that Session's own cursor. */
  lemma {:induction false} AgreementOverEveryRun(steps: seq<Step>)
    ensures Inv(Run(steps))
  {
    if steps != [] {
      AgreementOverEveryRun(steps[..|steps| - 1]);
      StepKeepsInv(Run(steps[..|steps| - 1]), steps[|steps| - 1]);
    }
  }

  /** Two logs of which one goes on from the other. */
  ghost predicate SameHistory(s: Service, t: Service) {
    s.bases == t.bases && (s.log <= t.log || t.log <= s.log)
  }

  /** Two clients of the same generation whose Session cursors name the same number show the same
      Session, however different their runs were, and however much more one of them has published. */
  lemma SameCursorSameSession(steps: seq<Step>, others: seq<Step>, id: string)
    requires var a, b := Run(steps), Run(others);
             && var g := a.sync.gui.generation;
                && b.sync.gui.generation == g
                && g in a.services && g in b.services && SameHistory(a.services[g], b.services[g])
                && id in a.sync.gui.sessions && id in b.sync.gui.sessions
                && BigIntOf(a.sync.gui.sessions[id].cursor) == BigIntOf(b.sync.gui.sessions[id].cursor)
    ensures Run(steps).sync.gui.sessions[id] == Run(others).sync.gui.sessions[id]
  {
    hide Run, BigIntOf, Folded;
    AgreementOverEveryRun(steps);
    AgreementOverEveryRun(others);
    var g, x, y := Run(steps).sync.gui.generation, Run(steps).sync.gui.sessions[id], Run(others).sync.gui.sessions[id];
    var k: nat :| Folded(Run(steps).services[g], x, k);
    var l: nat :| Folded(Run(others).services[g], y, l);
    SameFold(Run(steps).services[g], Run(others).services[g], x, y, k, l);
  }

  lemma SameFold(s: Service, t: Service, x: Session, y: Session, k: nat, l: nat)
    requires SameHistory(s, t) && x.id == y.id && Folded(s, x, k) && Folded(t, y, l)
    requires BigIntOf(x.cursor) == BigIntOf(y.cursor)
    ensures x == y
  {
    hide BigIntOf, Replay, Own;
    if s.log <= t.log {
      assert t.log[..|s.log|] == s.log;
      OwnPrefix(t.log, |s.log|, x.id);
    } else {
      assert s.log[..|t.log|] == t.log;
      OwnPrefix(s.log, |t.log|, x.id);
    }
    assert Own(s.log, x.id)[..k] == Own(t.log, x.id)[..k];
  }

  /** An unmounted effect never changes the screen again: a late snapshot, event or
      connection notice of a replaced client is ignored. */
  lemma {:induction false} DisposedIsSilent(w: World, steps: seq<Step>)
    requires !w.sync.active
    ensures Onwards(w, steps).sync == w.sync
  {
    hide Next;
    if steps != [] {
      DisposedIsSilent(w, steps[..|steps| - 1]);
      DisposedStep(Onwards(w, steps[..|steps| - 1]), steps[|steps| - 1]);
    }
  }

  lemma DisposedStep(w: World, step: Step)
    requires !w.sync.active
    ensures Next(w, step).sync == w.sync
  {
    hide Published, Seen, CanView, ValidService;
  }

  ghost predicate NoneStarted(steps: seq<Step>) {
    forall i :: 0 <= i < |steps| && steps[i].Refresh? ==> !Run(steps[..i]).sync.active
  }

  predicate NoPush(steps: seq<Step>) {
    forall i :: 0 <= i < |steps| ==> !steps[i].Push?
  }

  /** In every run a refresh that is on its way holds the commands' latch; the latch is held without
      one only before the first refresh, as the component starts. And a refresh on its way shows as
      synchronizing until a push says otherwise. */
  lemma {:induction false} PendingIsLatched(steps: seq<Step>)
    ensures var s := Run(steps).sync;
            && (s.pending ==> s.syncPending)
            && (s.syncPending && !s.pending ==> NoneStarted(steps))
            && (NoPush(steps) ==> (s.pending ==> s.syncing))
  {
    hide Next;
    if steps != [] {
      var n := |steps| - 1;
      PendingIsLatched(steps[..n]);
      LatchStep(Run(steps[..n]), steps[n]);
      hide Run;
      assert forall i :: 0 <= i < n ==> steps[..n][i] == steps[i] && steps[..n][..i] == steps[..i];
    }
  }

  lemma LatchStep(w: World, step: Step)
    ensures var s, t := w.sync, Next(w, step).sync;
            && (s.pending && t.pending ==> t.syncPending == s.syncPending && (step.Push? || (s.syncing ==> t.syncing)))
            && (!s.pending && t.pending ==> t.syncPending && t.syncing && step.Refresh?)
            && (s.pending && !t.pending ==> !t.syncPending)
            && (!s.pending && !t.pending ==> t.syncPending == s.syncPending && (step.Refresh? ==> !s.active))
  {
    hide ApplyEvent, ApplyAll, ValidService, Published, Seen, CanView;
  }

  /** What every step makes of the sign that the view is synchronizing, and of the buffer: a settled
      answer and a push end it, a lost connection and a refresh begin it, nothing else touches it;
      and once nothing is awaited nothing is held back. */
  lemma SyncingSteps(w: World, step: Step)
    requires w.sync.active && (!w.sync.pending ==> w.sync.buffered == [])
    ensures var s, t := w.sync, Next(w, step).sync;
            && (!t.pending ==> t.buffered == [])
            && t.syncing == if s.pending && !t.pending then false
                            else if step.Push? && CanView(w.services, step.generation, step.seen) then false
                            else if step.Lose? && (step.connection.Disconnected? || step.connection.ResyncRequired?) then true
                            else if step.Refresh? && !s.pending then true
                            else s.syncing
  {
    hide ApplyEvent, ApplyAll, ValidService, Published, Seen, CanView;
  }

  /** The effect is active until it is disposed, and then never again. */
  lemma {:induction false} ActiveUntilDisposed(steps: seq<Step>)
    ensures Run(steps).sync.active <==> forall i :: 0 <= i < |steps| ==> !steps[i].Dispose?
  {
    if steps != [] {
      var n := |steps| - 1;
      ActiveUntilDisposed(steps[..n]);
      ActiveStep(Run(steps[..n]), steps[n]);
      hide Run;
      assert forall i :: 0 <= i < n ==> steps[..n][i] == steps[i];
    }
  }

  lemma ActiveStep(w: World, step: Step)
    ensures Next(w, step).sync.active <==> w.sync.active && !step.Dispose?
  {
    hide ApplyEvent, ApplyAll, ValidService, Published, Seen, CanView;
  }

  ghost function Onwards(w: World, steps: seq<Step>): World {
    if steps == [] then w else Next(Onwards(w, steps[..|steps| - 1]), steps[|steps| - 1])
  }
}
