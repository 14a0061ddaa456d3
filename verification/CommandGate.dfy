/**
 The gate in front of submit and interrupt (gui/src/App.tsx). A command is sent by the
 function the latest render created, so it reads refs as they are now but state as it was
 then; `Face` is what one render closed over.
 */
module CommandGate {
  import opened Options
  import opened ClientState

  datatype Command = Submit(sessionId: string, cursor: string) | Interrupt(sessionId: string)
  datatype Awaited = Awaited(sessionId: string, cursor: string)
  datatype Outcome = Accepted | Rejected | Threw

  datatype Face = Face(mutationsAllowed: bool, selected: Option<Session>)

  datatype App = App(
    playback: bool,               // the client is the offline fixture
    gui: GuiState,
    selectedId: string,
    syncing: bool,
    syncPendingRef: bool,
    controlPendingRef: bool,
    controlPending: bool,
    awaiting: Option<Awaited>,    // awaitingPublication
    face: Face,
    inFlight: seq<Command>,
    sent: seq<Command>,
    rendered: bool)               // a render has been committed since the last command was sent

  datatype Step =
    | Remote(gui: GuiState, selectedId: string, syncing: bool, syncPending: bool)
    | Rendering
    | ClickSubmit(blank: bool)
    | ClickInterrupt
    | Reply(outcome: Outcome)

  function MutationsAllowed(a: App): bool {
    !a.syncing && !a.controlPending && a.awaiting.None?
    && ((a.gui.source.Fixture? && a.gui.connection.FixtureOffline?)
        || (a.gui.source.Live? && a.gui.connection.Connected?))
  }

  /** The awaited publication has arrived, or can no longer be told apart from silence. */
  predicate Released(gui: GuiState, w: Awaited) {
    || !gui.connection.Connected?
    || w.sessionId !in gui.sessions
    || gui.sessions[w.sessionId].cursor != w.cursor
  }

  /** A committed render, then the effect that drops a released wait; React shows the dropped
      wait in the render after. */
  function Render(a: App): App {
    var face := Face(MutationsAllowed(a),
                     if a.selectedId in a.gui.sessions then Some(a.gui.sessions[a.selectedId]) else None);
    a.(face := face, rendered := true,
       awaiting := if a.awaiting.Some? && Released(a.gui, a.awaiting.value) then None else a.awaiting)
  }

  predicate MaySend(a: App) {
    a.face.selected.Some? && !a.syncPendingRef && !a.controlPendingRef && a.face.mutationsAllowed
  }

  function Send(a: App, c: Command): App {
    a.(controlPendingRef := true, controlPending := true,
       inFlight := a.inFlight + [c], sent := a.sent + [c], rendered := false)
  }

  function OnSubmit(a: App, blank: bool): App {
    if !MaySend(a) || a.face.selected.value.status.Running? || blank then a
    else Send(a, Submit(a.face.selected.value.id, a.face.selected.value.cursor))
  }

  function OnInterrupt(a: App): App {
    if !MaySend(a) || !a.face.selected.value.status.Running? then a
    else Send(a, Interrupt(a.face.selected.value.id))
  }

  /** The oldest command in flight comes back. */
  function OnReply(a: App, outcome: Outcome): App
    requires a.inFlight != []
  {
    var c := a.inFlight[0];
    a.(awaiting := if outcome.Accepted? && c.Submit? && !a.playback then Some(Awaited(c.sessionId, c.cursor)) else a.awaiting,
       controlPendingRef := false, controlPending := false, inFlight := a.inFlight[1..])
  }

  /** The part of the component that renders, refs and handlers change in place. A handler runs
      up to its await when it is called, and the rest of it when the client answers. */
  class Controls {
    const playback: bool
    var gui: GuiState
    var selectedId: string
    var syncing: bool
    var syncPendingRef: bool
    var controlPendingRef: bool
    var controlPending: bool
    var awaiting: Option<Awaited>
    var face: Face
    var inFlight: seq<Command>
    var sent: seq<Command>
    var rendered: bool

    function State(): App
      reads this
    {
      App(playback, gui, selectedId, syncing, syncPendingRef, controlPendingRef, controlPending,
          awaiting, face, inFlight, sent, rendered)
    }

    constructor (playback: bool)
      ensures State() == Start(playback)
    {
      this.playback := playback;
      gui, selectedId, syncing, syncPendingRef := EMPTY, "", true, true;
      controlPendingRef, controlPending, awaiting := false, false, None;
      face, inFlight, sent, rendered := Face(false, None), [], [], true;
    }

    method CommitRender()
      modifies this`face, this`rendered, this`awaiting
      ensures State() == Render(old(State()))
    {
      face := Face(MutationsAllowed(State()), if selectedId in gui.sessions then Some(gui.sessions[selectedId]) else None);
      rendered := true;
      if awaiting.Some? {
        if !gui.connection.Connected? || awaiting.value.sessionId !in gui.sessions
           || gui.sessions[awaiting.value.sessionId].cursor != awaiting.value.cursor {
          awaiting := None;
        }
      }
    }

    method CallClient(command: Command)
      modifies this
      ensures State() == Send(old(State()), command)
    {
      controlPendingRef := true;
      controlPending := true;
      inFlight, sent, rendered := inFlight + [command], sent + [command], false;
    }

    method SubmitClicked(blank: bool)
      modifies this
      ensures State() == OnSubmit(old(State()), blank)
    {
      if face.selected.None? || syncPendingRef || controlPendingRef || !face.mutationsAllowed || face.selected.value.status.Running? {
        return;
      }
      if blank {
        return;
      }
      CallClient(Submit(face.selected.value.id, face.selected.value.cursor));
    }

    method InterruptClicked()
      modifies this
      ensures State() == OnInterrupt(old(State()))
    {
      if face.selected.None? || syncPendingRef || controlPendingRef || !face.mutationsAllowed || !face.selected.value.status.Running? {
        return;
      }
      CallClient(Interrupt(face.selected.value.id));
    }

    method Answered(outcome: Outcome)
      requires inFlight != []
      modifies this
      ensures State() == OnReply(old(State()), outcome)
    {
      var command := inFlight[0];
      if outcome.Accepted? && command.Submit? && !playback {
        awaiting := Some(Awaited(command.sessionId, command.cursor));
      }
      controlPendingRef := false;
      controlPending := false;
      inFlight := inFlight[1..];
    }
  }

  /** `prompt`: React commits the updates of a click before the reply to it is handled. */
  function Next(prompt: bool, a: App, step: Step): App {
    match step
    case Remote(gui, selectedId, syncing, syncPending) =>
      a.(gui := gui, selectedId := selectedId, syncing := syncing, syncPendingRef := syncPending)
    case Rendering => Render(a)
    case ClickSubmit(blank) => OnSubmit(a, blank)
    case ClickInterrupt => OnInterrupt(a)
    case Reply(outcome) =>
      if a.inFlight == [] || (prompt && !a.rendered) then a else OnReply(a, outcome)
  }

  function Start(playback: bool): App {
    App(playback, EMPTY, "", true, true, false, false, None, Face(false, None), [], [], true)
  }

  function Run(playback: bool, prompt: bool, steps: seq<Step>): App {
    if steps == [] then Start(playback)
    else Next(prompt, Run(playback, prompt, steps[..|steps| - 1]), steps[|steps| - 1])
  }

  lemma RunOne(playback: bool, prompt: bool, steps: seq<Step>, step: Step)
    ensures Run(playback, prompt, steps + [step]) == Next(prompt, Run(playback, prompt, steps), step)
  {
    assert (steps + [step])[..|steps|] == steps;
  }

  // -------------------------------------------------------------- invariants

  predicate Inv(a: App) {
    && |a.inFlight| <= 1
    && a.controlPendingRef == a.controlPending == (a.inFlight != [])
    && (a.awaiting.Some? || a.inFlight != [] ==> (a.face.mutationsAllowed <==> !a.rendered))
    && (!a.rendered && (a.awaiting.Some? || SubmitOut(a)) ==> a.face.selected.Some? && !a.face.selected.value.status.Running?)
  }

  predicate SubmitOut(a: App) {
    a.inFlight != [] && a.inFlight[0].Submit?
  }

  lemma SendKeepsInv(a: App, blank: bool)
    requires Inv(a)
    ensures Inv(OnSubmit(a, blank)) && Inv(OnInterrupt(a))
  {
  }

  lemma ReplyKeepsInv(a: App, outcome: Outcome)
    requires Inv(a) && a.inFlight != []
    ensures Inv(OnReply(a, outcome))
  {
  }

  lemma RenderKeepsInv(a: App)
    requires Inv(a)
    ensures Inv(Render(a))
  {
    hide Released;
  }

  lemma StepKeepsInv(prompt: bool, a: App, step: Step)
    requires Inv(a)
    ensures Inv(Next(prompt, a, step))
  {
    hide Inv, OnSubmit, OnInterrupt, OnReply, Render;
    match step
    case Remote(gui, selectedId, syncing, syncPending) => RemoteKeepsInv(a, gui, selectedId, syncing, syncPending);
    case Rendering => RenderKeepsInv(a);
    case ClickSubmit(blank) => SendKeepsInv(a, blank);
    case ClickInterrupt => SendKeepsInv(a, true);
    case Reply(outcome) =>
      if a.inFlight != [] {
        ReplyKeepsInv(a, outcome);
      }
  }

  lemma RemoteKeepsInv(a: App, gui: GuiState, selectedId: string, syncing: bool, syncPending: bool)
    requires Inv(a)
    ensures Inv(a.(gui := gui, selectedId := selectedId, syncing := syncing, syncPendingRef := syncPending))
  {
  }

  /** At most one command is in flight, whatever the clicks, renders, replies and remote changes. */
  lemma {:induction false} OneInFlight(playback: bool, prompt: bool, steps: seq<Step>)
    ensures Inv(Run(playback, prompt, steps))
    ensures |Run(playback, prompt, steps).inFlight| <= 1
  {
    hide Next;
    if steps != [] {
      OneInFlight(playback, prompt, steps[..|steps| - 1]);
      StepKeepsInv(prompt, Run(playback, prompt, steps[..|steps| - 1]), steps[|steps| - 1]);
    }
  }

  lemma {:induction false} PromptWaits(playback: bool, steps: seq<Step>)
    ensures var a := Run(playback, true, steps);
            a.awaiting.Some? ==> a.rendered && a.inFlight == []
  {
    if steps != [] {
      PromptWaits(playback, steps[..|steps| - 1]);
      OneInFlight(playback, true, steps[..|steps| - 1]);
    }
  }

  // ---------------------------------------------------- quiet until evidence

  predicate SendsAt(playback: bool, prompt: bool, steps: seq<Step>, j: nat)
    requires j < |steps|
  {
    |Run(playback, prompt, steps[..j + 1]).sent| > |Run(playback, prompt, steps[..j]).sent|
  }

  /** Step `i` handles the accepted reply to a live submit of the Session and cursor in `w`. */
  predicate AcceptedAt(steps: seq<Step>, i: nat, w: Awaited)
    requires i < |steps|
  {
    var a := Run(false, true, steps[..i]);
    && steps[i] == Reply(Accepted)
    && a.inFlight == [Submit(w.sessionId, w.cursor)]
    && a.rendered
  }

  /** Step `k` renders a state that releases the wait. */
  predicate EvidenceAt(steps: seq<Step>, k: nat, w: Awaited)
    requires k < |steps|
  {
    steps[k].Rendering? && Released(Run(false, true, steps[..k]).gui, w)
  }

  lemma StillWaits(a: App, step: Step, w: Awaited)
    requires a.awaiting == Some(w) && a.inFlight == []
    requires !(step.Rendering? && Released(a.gui, w))
    ensures Next(true, a, step).awaiting == Some(w)
  {
    hide Released, MaySend, MutationsAllowed;
  }

  lemma {:induction false} WaitsSince(steps: seq<Step>, i: nat, j: nat, w: Awaited)
    requires i < j <= |steps| && AcceptedAt(steps, i, w)
    requires forall k :: i < k < j ==> !EvidenceAt(steps, k, w)
    ensures Run(false, true, steps[..j]).awaiting == Some(w)
  {
    hide Run, Released, MaySend, MutationsAllowed;
    var before := steps[..j - 1];
    assert steps[..j] == before + [steps[j - 1]];
    RunOne(false, true, before, steps[j - 1]);
    if i < j - 1 {
      WaitsSince(steps, i, j - 1, w);
      PromptWaits(false, before);
      assert !EvidenceAt(steps, j - 1, w);
      StillWaits(Run(false, true, before), steps[j - 1], w);
    } else {
      PlaybackFixed(false, true, before);
    }
  }

  lemma {:induction false} PlaybackFixed(playback: bool, prompt: bool, steps: seq<Step>)
    ensures Run(playback, prompt, steps).playback == playback
  {
    if steps != [] {
      PlaybackFixed(playback, prompt, steps[..|steps| - 1]);
    }
  }

  /** After an accepted live submit no command of either kind is sent until some render has
      shown that Session at another cursor, or gone, or the connection lost. */
  lemma QuietUntilEvidence(steps: seq<Step>, i: nat, j: nat, w: Awaited)
    requires i < j < |steps| && AcceptedAt(steps, i, w)
    requires SendsAt(false, true, steps, j)
    ensures exists k :: i < k < j && EvidenceAt(steps, k, w)
  {
    assert steps[..j + 1] == steps[..j] + [steps[j]];
    RunOne(false, true, steps[..j], steps[j]);
    OneInFlight(false, true, steps[..j]);
    PromptWaits(false, steps[..j]);
    if forall k :: i < k < j ==> !EvidenceAt(steps, k, w) {
      WaitsSince(steps, i, j, w);
      assert false;
    }
  }

  /** If the Session had already moved when the reply arrived, the very next render drops the
      wait and the one after it opens the gate. */
  lemma MovedBeforeReply(steps: seq<Step>, w: Awaited)
    requires var a := Run(false, true, steps);
             && a.inFlight == [Submit(w.sessionId, w.cursor)] && a.rendered
             && a.gui.source.Live? && a.gui.connection.Connected? && !a.syncing
             && w.sessionId in a.gui.sessions && a.gui.sessions[w.sessionId].cursor != w.cursor
    ensures var b := Run(false, true, steps + [Reply(Accepted), Rendering]);
            b.awaiting.None? && !b.face.mutationsAllowed
    ensures Run(false, true, steps + [Reply(Accepted), Rendering, Rendering]).face.mutationsAllowed
  {
    var one, two := steps + [Reply(Accepted)], steps + [Reply(Accepted), Rendering];
    assert two == one + [Rendering] && two + [Rendering] == steps + [Reply(Accepted), Rendering, Rendering];
    RunOne(false, true, steps, Reply(Accepted));
    RunOne(false, true, one, Rendering);
    RunOne(false, true, two, Rendering);
    PlaybackFixed(false, true, steps);
  }

  // ------------------------------------------- what the gate leans on in React

  /** If renders may lag behind replies, a click while a submit is still awaited sends a second
      command exactly when no render has been committed since the first was sent (and the
      remaining guards, all read from refs or from that same old render, let it through). An
      interrupt click sends nothing even then. */
  lemma SecondSubmitNeedsStaleFace(steps: seq<Step>, blank: bool)
    requires Run(false, false, steps).awaiting.Some?
    ensures var a := Run(false, false, steps);
            |OnSubmit(a, blank).sent| > |a.sent| <==>
            && !a.rendered
            && !a.controlPendingRef && !a.syncPendingRef && !blank
            && a.face.selected.Some? && !a.face.selected.value.status.Running?
    ensures OnInterrupt(Run(false, false, steps)) == Run(false, false, steps)
  {
    hide Run;
    OneInFlight(false, false, steps);
  }

  /** While a submit is awaited an interrupt click never sends, whether renders may lag or not: a
      render that still lets commands through is the one the submit was sent from, and it shows a
      Session that is not running. */
  lemma InterruptWaits(playback: bool, prompt: bool, steps: seq<Step>)
    requires Run(playback, prompt, steps).awaiting.Some?
    ensures OnInterrupt(Run(playback, prompt, steps)) == Run(playback, prompt, steps)
  {
    hide Run;
    OneInFlight(playback, prompt, steps);
  }

  /** Such a run exists: the reply to the first click is handled before any render. */
  lemma LaggingRenderSendsTwice(session: Session)
    requires !session.status.Running?
    ensures exists steps :: |Run(false, false, steps).sent| == 2 && Run(false, false, steps).awaiting == Some(Awaited(session.id, session.cursor))
  {
    var gui := GuiState("g", Connected, Live, map[session.id := session]);
    var s1 := [Remote(gui, session.id, false, false)];
    var s2 := s1 + [Rendering];
    var s3 := s2 + [ClickSubmit(false)];
    var s4 := s3 + [Reply(Accepted)];
    RunOne(false, false, [], s1[0]);
    assert s1 == [] + s1;
    RunOne(false, false, s1, Rendering);
    var a2 := Run(false, false, s2);
    assert MaySend(a2) && a2.face.selected == Some(session);
    RunOne(false, false, s2, ClickSubmit(false));
    assert Run(false, false, s3).inFlight == [Submit(session.id, session.cursor)];
    RunOne(false, false, s3, Reply(Accepted));
    RunOne(false, false, s4, ClickSubmit(false));
    assert |Run(false, false, s4 + [ClickSubmit(false)]).sent| == 2;
  }

  // ------------------------------------------------ when the gate is open at all

  /** Step `k` is the last render before step `j`. */
  predicate LastRender(steps: seq<Step>, k: nat, j: nat) {
    k < j <= |steps| && steps[k].Rendering? && forall i :: k < i < j ==> !steps[i].Rendering?
  }

  /** What a render must be taken with for its face to let commands through. */
  predicate OpenTo(a: App) {
    && !a.syncing && !a.controlPending && a.awaiting.None?
    && ((a.gui.source == Fixture && a.gui.connection == FixtureOffline)
        || (a.gui.source == SourceKind.Live && a.gui.connection == Connected))
  }

  function SelectedIn(a: App): Option<Session> {
    if a.selectedId in a.gui.sessions then Some(a.gui.sessions[a.selectedId]) else None
  }

  /** Until the next render the handlers act on the last one. */
  lemma {:induction false} ActsOnTheLastRender(playback: bool, prompt: bool, steps: seq<Step>)
    ensures var face := Run(playback, prompt, steps).face;
            && (forall k: nat :: LastRender(steps, k, |steps|) ==>
                  var a := Run(playback, prompt, steps[..k]);
                  face.mutationsAllowed == OpenTo(a) && face.selected == SelectedIn(a))
            && ((forall k: nat :: !LastRender(steps, k, |steps|)) ==> !face.mutationsAllowed)
  {
    hide OnSubmit, OnInterrupt, OnReply;
    if steps != [] {
      var n := |steps| - 1;
      var front := steps[..n];
      ActsOnTheLastRender(playback, prompt, front);
      FaceOfStep(prompt, Run(playback, prompt, front), steps[n]);
      forall k: nat | LastRender(steps, k, |steps|) && k < n
        ensures LastRender(front, k, n) && front[..k] == steps[..k]
      {
      }
      forall k: nat | LastRender(front, k, n) && !steps[n].Rendering?
        ensures LastRender(steps, k, |steps|)
      {
      }
      if steps[n].Rendering? {
        assert LastRender(steps, n, |steps|);
      }
    }
  }

  lemma FaceOfStep(prompt: bool, a: App, step: Step)
    ensures Next(prompt, a, step).face
            == if step.Rendering? then Face(OpenTo(a), SelectedIn(a)) else a.face
  {
  }

  /** In every run, whether renders may lag or not, a step that sends acts on a render before it that
      was neither synchronizing nor waiting for anything, with the offline fixture or a live
      connection; and what it sends is for the Session that render showed as selected. */
  lemma SendsFromAnOpenRender(playback: bool, prompt: bool, steps: seq<Step>, j: nat)
    requires j < |steps| && SendsAt(playback, prompt, steps, j)
    ensures exists k: nat ::
              && LastRender(steps[..j], k, j)
              && var a, sent := Run(playback, prompt, steps[..k]), Run(playback, prompt, steps[..j + 1]).sent;
                 && OpenTo(a) && SelectedIn(a).Some?
                 && !Run(playback, prompt, steps[..j]).syncPendingRef
                 && var session := SelectedIn(a).value;
                    sent == Run(playback, prompt, steps[..j]).sent
                            + [if session.status.Running? then Interrupt(session.id) else Submit(session.id, session.cursor)]
                    && steps[j] == if session.status.Running? then ClickInterrupt else ClickSubmit(false)
  {
    var before := steps[..j];
    assert steps[..j + 1] == before + [steps[j]];
    RunOne(playback, prompt, before, steps[j]);
    ActsOnTheLastRender(playback, prompt, before);
    hide Run, OpenTo, SelectedIn, Next, LastRender;
    StepSends(prompt, Run(playback, prompt, before), steps[j]);
    var k: nat :| LastRender(before, k, |before|);
    assert before[..k] == steps[..k];
  }

  lemma StepSends(prompt: bool, a: App, step: Step)
    requires |Next(prompt, a, step).sent| > |a.sent|
    ensures a.face.mutationsAllowed && a.face.selected.Some? && !a.syncPendingRef
    ensures var session := a.face.selected.value;
            && Next(prompt, a, step).sent
               == a.sent + [if session.status.Running? then Interrupt(session.id) else Submit(session.id, session.cursor)]
            && step == if session.status.Running? then ClickInterrupt else ClickSubmit(false)
  {
    hide MutationsAllowed, Released;
  }

  /** And a render taken with the gate open lets a click through at once: a submit on a Session that
      is not running, an interrupt on one that is. */
  lemma OpenRenderSends(playback: bool, prompt: bool, steps: seq<Step>)
    requires var a := Run(playback, prompt, steps);
             OpenTo(a) && a.inFlight == [] && !a.syncPendingRef && SelectedIn(a).Some?
    ensures var sent, session := Run(playback, prompt, steps).sent, SelectedIn(Run(playback, prompt, steps)).value;
            if session.status.Running?
            then Run(playback, prompt, steps + [Rendering, ClickInterrupt]).sent == sent + [Interrupt(session.id)]
            else Run(playback, prompt, steps + [Rendering, ClickSubmit(false)]).sent == sent + [Submit(session.id, session.cursor)]
  {
    var a, session := Run(playback, prompt, steps), SelectedIn(Run(playback, prompt, steps)).value;
    OneInFlight(playback, prompt, steps);
    RunOne(playback, prompt, steps, Rendering);
    var click := if session.status.Running? then ClickInterrupt else ClickSubmit(false);
    assert steps + [Rendering, click] == (steps + [Rendering]) + [click];
    RunOne(playback, prompt, steps + [Rendering], click);
  }

  /** Exactly when a render drops the wait: the connection is not up, the Session is gone, or its cursor
      is another than the submitted one. */
  lemma RenderDropsTheWait(a: App, w: Awaited)
    requires a.awaiting == Some(w)
    ensures Render(a).awaiting ==
            if a.gui.connection == Connected && w.sessionId in a.gui.sessions && a.gui.sessions[w.sessionId].cursor == w.cursor
            then Some(w) else None
  {
  }

  /** With the offline fixture nothing is ever awaited. */
  lemma {:induction false} PlaybackNeverWaits(prompt: bool, steps: seq<Step>)
    ensures Run(true, prompt, steps).awaiting.None?
  {
    if steps != [] {
      var n := |steps| - 1;
      PlaybackNeverWaits(prompt, steps[..n]);
      PlaybackFixed(true, prompt, steps[..n]);
      hide Run, MutationsAllowed, MaySend;
      assert Next(prompt, Run(true, prompt, steps[..n]), steps[n]).awaiting.None?;
    }
  }
}
