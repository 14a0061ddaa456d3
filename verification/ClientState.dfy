/**
 The remote half of the GUI state and its reducer (gui/src/client/model.ts and
 gui/src/client/state.ts): installing an authoritative snapshot, folding one
 event into a Session, and freezing on anything that is not the next event.
 */
module ClientState {
  import opened Options
  import opened Decimals

  datatype Connection = FixtureOffline | Connected | Disconnected | ResyncRequired
  datatype SourceKind = Fixture | Live
  datatype SessionStatus = Idle | Running | Waiting | Interrupted | Failed
  datatype Phase = Sent | Streaming | Complete | Interrupted | Failed
  datatype RunStatus = Running | Waiting | Completed | Failed | Interrupted
  datatype TaskStatus = Pending | Running | Completed | Failed | Cancelled
  datatype AgentStatus = Pending | Running | Completed | Failed | Interrupted

  datatype Message = Message(id: string, fromUser: bool, content: string, phase: Phase)
  datatype Document = Document(id: string, content: string)
  datatype Activity = Activity(id: string, taskId: string, title: string)
  datatype Task = Task(id: string, title: string, status: TaskStatus, activityIds: seq<string>)
  datatype AgentRun = AgentRun(id: string, status: AgentStatus, summary: Option<string>)
  datatype Run = Run(
    id: string,
    status: RunStatus,
    currentTaskId: Option<string>,
    tasks: seq<Task>,
    activities: seq<Activity>,
    agentRuns: seq<AgentRun>)

  /** A Session as clients see it. The cursor is text; `BigIntOf` says what number it names. */
  datatype Session = Session(
    id: string,
    title: string,
    cursor: string,
    status: SessionStatus,
    messages: seq<Message>,
    documents: seq<Document>,
    run: Option<Run>)

  datatype Snapshot = Snapshot(
    generation: string,
    connection: Connection,
    source: SourceKind,
    sessions: seq<Session>)

  datatype TaskUpdate = TaskUpdate(taskId: string, status: TaskStatus)

  datatype Body =
    | ExecutionAccepted(user: Message, assistant: Message, started: Option<Run>)
    | OutputDelta(messageId: string, delta: string)
    | DocumentAvailable(document: Document)
    | ActivityAppended(runId: string, activity: Activity)
    | TasksUpdated(runId: string, updates: seq<TaskUpdate>, currentTaskId: Option<string>)
    | AgentUpdated(runId: string, agentRunId: string, status: AgentStatus, summary: Option<string>)
    | ExecutionCompleted(messageId: string)
    | ExecutionInterrupted(messageId: string)

  datatype Event = Event(generation: string, sessionId: string, cursor: string, body: Body)

  // ------------------------------------------------------ folding one event

  function MapSeq<A, B>(f: A -> B, s: seq<A>): (r: seq<B>)
    ensures |r| == |s| && forall i :: 0 <= i < |s| ==> r[i] == f(s[i])
  {
    seq(|s|, i requires 0 <= i < |s| => f(s[i]))
  }

  function UpdateMessage(messages: seq<Message>, id: string, update: Message -> Message): seq<Message> {
    MapSeq((m: Message) => if m.id == id then update(m) else m, messages)
  }

  /** Index of the first document with this id, or the length when there is none. */
  function FindDocument(documents: seq<Document>, id: string): (k: nat)
    ensures k <= |documents|
  {
    if documents == [] || documents[0].id == id then 0 else 1 + FindDocument(documents[1..], id)
  }

  function ReplaceDocument(documents: seq<Document>, incoming: Document): seq<Document> {
    var k := FindDocument(documents, incoming.id);
    if k == |documents| then documents + [incoming] else documents[k := incoming]
  }

  /** `event.updates.find(...)`: the first update for the task wins. */
  function UpdateFor(updates: seq<TaskUpdate>, taskId: string): Option<TaskStatus> {
    if updates == [] then None
    else if updates[0].taskId == taskId then Some(updates[0].status)
    else UpdateFor(updates[1..], taskId)
  }

  function FinishTasks(tasks: seq<Task>, status: TaskStatus): seq<Task> {
    MapSeq((t: Task) => if t.status.Running? then t.(status := status) else t, tasks)
  }

  function FinishAgents(agents: seq<AgentRun>, status: AgentStatus): seq<AgentRun> {
    MapSeq((a: AgentRun) => if a.status.Running? then a.(status := status) else a, agents)
  }

  /** A run that an event of run `runId` applies to. */
  predicate Concerns(run: Option<Run>, runId: string) {
    run.Some? && run.value.id == runId
  }

  function ReduceRun(run: Option<Run>, body: Body): Option<Run> {
    match body
    case ExecutionAccepted(_, _, started) => started
    case ActivityAppended(runId, activity) =>
      if !Concerns(run, runId) then run else
      Some(run.value.(
        activities := run.value.activities + [activity],
        tasks := MapSeq((t: Task) => if t.id == activity.taskId then t.(activityIds := t.activityIds + [activity.id]) else t,
                        run.value.tasks)))
    case TasksUpdated(runId, updates, currentTaskId) =>
      if !Concerns(run, runId) then run else
      Some(run.value.(
        currentTaskId := currentTaskId,
        tasks := MapSeq((t: Task) => var u := UpdateFor(updates, t.id); if u.Some? then t.(status := u.value) else t,
                        run.value.tasks)))
    case AgentUpdated(runId, agentRunId, status, summary) =>
      if !Concerns(run, runId) then run else
      Some(run.value.(
        agentRuns := MapSeq((a: AgentRun) =>
                              if a.id == agentRunId
                              then a.(status := status, summary := if summary.Some? then summary else a.summary)
                              else a,
                            run.value.agentRuns)))
    case ExecutionCompleted(_) =>
      if run.None? then None else
      Some(run.value.(
        status := RunStatus.Completed,
        currentTaskId := None,
        tasks := FinishTasks(run.value.tasks, TaskStatus.Completed),
        agentRuns := FinishAgents(run.value.agentRuns, AgentStatus.Completed)))
    case ExecutionInterrupted(_) =>
      if run.None? then None else
      Some(run.value.(
        status := RunStatus.Interrupted,
        tasks := FinishTasks(run.value.tasks, TaskStatus.Cancelled),
        agentRuns := FinishAgents(run.value.agentRuns, AgentStatus.Interrupted)))
    case _ => run
  }

  /** `reduceSession`: fold one event into the Session it belongs to. */
  function ReduceSession(session: Session, event: Event): Session {
    var next := session.(cursor := event.cursor, run := ReduceRun(session.run, event.body));
    match event.body
    case ExecutionAccepted(user, assistant, _) =>
      next.(status := SessionStatus.Running, messages := session.messages + [user, assistant])
    case OutputDelta(id, delta) =>
      next.(messages := UpdateMessage(session.messages, id,
              (m: Message) => m.(content := m.content + delta, phase := Phase.Streaming)))
    case DocumentAvailable(document) =>
      next.(documents := ReplaceDocument(session.documents, document))
    case ExecutionCompleted(id) =>
      next.(status := SessionStatus.Idle,
            messages := UpdateMessage(session.messages, id, (m: Message) => m.(phase := Phase.Complete)))
    case ExecutionInterrupted(id) =>
      next.(status := SessionStatus.Interrupted,
            messages := UpdateMessage(session.messages, id, (m: Message) => m.(phase := Phase.Interrupted)))
    case _ => next
  }

  /** Folding a list of events, oldest first. */
  function Replay(session: Session, events: seq<Event>): Session {
    if events == [] then session
    else ReduceSession(Replay(session, events[..|events| - 1]), events[|events| - 1])
  }

  // ----------------------------------------------------------- the reducer

  datatype GuiState = GuiState(
    generation: string,
    connection: Connection,
    source: SourceKind,
    sessions: map<string, Session>)

  datatype Action =
    | SyncFailed
    | ConnectionChanged(connection: Connection)
    | SnapshotInstalled(snapshot: Snapshot)
    | EventReceived(event: Event)

  const EMPTY := GuiState("", Disconnected, Fixture, map[])

  /** `Object.fromEntries`: for a repeated id the later Session wins. */
  function ById(sessions: seq<Session>): map<string, Session> {
    if sessions == [] then map[]
    else
      var last := sessions[|sessions| - 1];
      ById(sessions[..|sessions| - 1])[last.id := last]
  }

  function InstallSnapshot(snapshot: Snapshot): GuiState {
    GuiState(snapshot.generation, snapshot.connection, snapshot.source, ById(snapshot.sessions))
  }

  function RequireResync(state: GuiState): GuiState {
    state.(connection := ResyncRequired)
  }

  predicate Frozen(state: GuiState) {
    state.connection.Disconnected? || state.connection.ResyncRequired?
  }

  function ApplyEvent(state: GuiState, event: Event): GuiState {
    if Frozen(state) then state
    else if event.generation != state.generation then RequireResync(state)
    else if event.sessionId !in state.sessions then RequireResync(state)
    else
      var session := state.sessions[event.sessionId];
      var current, incoming := BigIntOf(session.cursor), BigIntOf(event.cursor);
      if current.None? || incoming.None? then RequireResync(state)
      else if incoming.value <= current.value then state
      else if incoming.value != current.value + 1 then RequireResync(state)
      else state.(sessions := state.sessions[event.sessionId := ReduceSession(session, event)])
  }

  function Reduce(state: GuiState, action: Action): GuiState {
    match action
    case SyncFailed => RequireResync(state)
    case ConnectionChanged(connection) => state.(connection := connection)
    case SnapshotInstalled(snapshot) => InstallSnapshot(snapshot)
    case EventReceived(event) => ApplyEvent(state, event)
  }

  /** Dispatching a list of events, oldest first. */
  function ApplyAll(state: GuiState, events: seq<Event>): GuiState {
    if events == [] then state
    else ApplyEvent(ApplyAll(state, events[..|events| - 1]), events[|events| - 1])
  }

  // ------------------------------------------------------------ properties

  /** No task and no agent of a finished run is still shown as running, whatever the run held. */
  lemma TerminalEventsStopTheRun(session: Session, event: Event)
    requires event.body.ExecutionCompleted? || event.body.ExecutionInterrupted?
    ensures var after := ReduceSession(session, event);
            && !after.status.Running?
            && after.id == session.id && after.cursor == event.cursor
            && (after.run.Some? <==> session.run.Some?)
            && (after.run.Some? ==>
                  && !after.run.value.status.Running?
                  && (forall t :: t in after.run.value.tasks ==> !t.status.Running?)
                  && (forall a :: a in after.run.value.agentRuns ==> !a.status.Running?))
  {
    var after := ReduceSession(session, event);
    if after.run.Some? {
      var tasks, agents := session.run.value.tasks, session.run.value.agentRuns;
      forall i | 0 <= i < |tasks|
        ensures !after.run.value.tasks[i].status.Running?
      {
        assert FinishTasks(tasks, if event.body.ExecutionCompleted? then TaskStatus.Completed else TaskStatus.Cancelled)[i] != tasks[i]
               || !tasks[i].status.Running?;
      }
    }
  }

  /** Nothing of a Session is shown as running. */
  predicate AtRest(session: Session) {
    && !session.status.Running?
    && (session.run.Some? ==>
          && !session.run.value.status.Running?
          && (forall i :: 0 <= i < |session.run.value.tasks| ==> !session.run.value.tasks[i].status.Running?)
          && (forall i :: 0 <= i < |session.run.value.agentRuns| ==> !session.run.value.agentRuns[i].status.Running?))
  }

  /** An event that can set something running: a new run, or an update that says so of a task or an agent. */
  predicate Wakes(body: Body) {
    match body
    case ExecutionAccepted(_, _, _) => true
    case TasksUpdated(_, updates, _) => exists i :: 0 <= i < |updates| && updates[i].status.Running?
    case AgentUpdated(_, _, status, _) => status.Running?
    case _ => false
  }

  lemma {:induction false} UpdateForIsListed(updates: seq<TaskUpdate>, taskId: string)
    ensures UpdateFor(updates, taskId).Some? ==>
              exists i :: 0 <= i < |updates| && updates[i].status == UpdateFor(updates, taskId).value
  {
    if updates != [] {
      if updates[0].taskId == taskId {
        assert updates[0].status == UpdateFor(updates, taskId).value;
      } else {
        UpdateForIsListed(updates[1..], taskId);
        if i :| 0 <= i < |updates[1..]| && Some(updates[1..][i].status) == UpdateFor(updates[1..], taskId) {
          assert updates[i + 1].status == UpdateFor(updates, taskId).value;
        }
      }
    }
  }

  lemma UpdatesKeepRest(session: Session, event: Event)
    requires AtRest(session) && event.body.TasksUpdated? && !Wakes(event.body)
    ensures AtRest(ReduceSession(session, event))
  {
    var after := ReduceSession(session, event);
    if session.run.Some? && session.run.value.id == event.body.runId {
      forall i | 0 <= i < |session.run.value.tasks|
        ensures !after.run.value.tasks[i].status.Running?
      {
        UpdateForIsListed(event.body.updates, session.run.value.tasks[i].id);
      }
    }
  }

  lemma EventKeepsRest(session: Session, event: Event)
    requires AtRest(session) && !Wakes(event.body)
    ensures AtRest(ReduceSession(session, event))
  {
    hide UpdateMessage, ReplaceDocument, UpdateFor;
    if event.body.TasksUpdated? {
      UpdatesKeepRest(session, event);
    }
  }

  /** After a run has completed or been interrupted nothing of its Session runs again, whatever
      text, documents, activities and updates still come, until an event sets something running. */
  lemma {:induction false} StaysAtRest(session: Session, terminal: Event, events: seq<Event>)
    requires terminal.body.ExecutionCompleted? || terminal.body.ExecutionInterrupted?
    requires forall e :: e in events ==> !Wakes(e.body)
    ensures AtRest(Replay(session, [terminal] + events))
  {
    hide ReduceSession, AtRest, Wakes;
    if events == [] {
      OneEvent(session, terminal);
      assert [terminal] + events == [terminal];
      StoppedIsAtRest(session, terminal);
    } else {
      var n := |events| - 1;
      StaysAtRest(session, terminal, events[..n]);
      assert ([terminal] + events)[..n + 1] == [terminal] + events[..n];
      EventKeepsRest(Replay(session, [terminal] + events[..n]), events[n]);
    }
  }

  lemma OneEvent(session: Session, event: Event)
    ensures Replay(session, [event]) == ReduceSession(session, event)
  {
    assert [event][..0] == [];
    assert Replay(session, []) == session;
  }

  lemma StoppedIsAtRest(session: Session, terminal: Event)
    requires terminal.body.ExecutionCompleted? || terminal.body.ExecutionInterrupted?
    ensures AtRest(ReduceSession(session, terminal))
  {
    hide ReduceSession;
    TerminalEventsStopTheRun(session, terminal);
  }

  /** Text streamed into a message by any run of deltas, read in order. */
  function Streamed(events: seq<Event>, id: string): string {
    if events == [] then ""
    else
      var last := events[|events| - 1].body;
      Streamed(events[..|events| - 1], id) + if last.OutputDelta? && last.messageId == id then last.delta else ""
  }

  /** The phase of a message after events: what the last delta to it, or the last completion or
      interruption of it, says. */
  function PhaseAfter(events: seq<Event>, id: string, phase: Phase): Phase {
    if events == [] then phase
    else
      var before := PhaseAfter(events[..|events| - 1], id, phase);
      match events[|events| - 1].body
      case OutputDelta(messageId, _) => if messageId == id then Phase.Streaming else before
      case ExecutionCompleted(messageId) => if messageId == id then Phase.Complete else before
      case ExecutionInterrupted(messageId) => if messageId == id then Phase.Interrupted else before
      case _ => before
  }

  /** A message as the events leave it: its text is the old text followed by exactly the deltas sent
      to it, in order, and the rest but the phase is as it was. */
  function Streaming(message: Message, events: seq<Event>): Message {
    message.(content := message.content + Streamed(events, message.id),
             phase := PhaseAfter(events, message.id, message.phase))
  }

  predicate MessageAt(messages: seq<Message>, i: nat, message: Message) {
    i < |messages| && messages[i] == message
  }

  /** Replaying any events of a Session leaves every message where it was. */
  lemma {:induction false} ReplayStreamsText(session: Session, events: seq<Event>, i: nat)
    requires i < |session.messages|
    ensures MessageAt(Replay(session, events).messages, i, Streaming(session.messages[i], events))
  {
    hide ReduceSession, MessageAt;
    if events == [] {
      Untouched(session, i);
    } else {
      ReplayStreamsText(session, events[..|events| - 1], i);
      EventStreamsText(Replay(session, events[..|events| - 1]), events[|events| - 1], i,
                       Streaming(session.messages[i], events[..|events| - 1]));
      StreamingStep(session.messages[i], events);
    }
  }

  lemma Untouched(session: Session, i: nat)
    requires i < |session.messages|
    ensures MessageAt(Replay(session, []).messages, i, Streaming(session.messages[i], []))
  {
  }

  lemma EventStreamsText(session: Session, event: Event, i: nat, message: Message)
    requires MessageAt(session.messages, i, message)
    ensures MessageAt(ReduceSession(session, event).messages, i, Streaming(message, [event]))
  {
    hide ReduceRun, ReplaceDocument;
    assert [event][..0] == [];
    assert Streamed([], message.id) == "" && PhaseAfter([], message.id, message.phase) == message.phase;
  }

  lemma StreamingStep(message: Message, events: seq<Event>)
    requires events != []
    ensures Streaming(Streaming(message, events[..|events| - 1]), [events[|events| - 1]]) == Streaming(message, events)
  {
    var n, id := |events| - 1, message.id;
    var last := [events[n]];
    OneStreamed(events[n], id, PhaseAfter(events[..n], id, message.phase));
    assert Streamed(events, id) == Streamed(events[..n], id) + Streamed(last, id);
    assert PhaseAfter(events, id, message.phase) == PhaseAfter(last, id, PhaseAfter(events[..n], id, message.phase));
    assert (message.content + Streamed(events[..n], id)) + Streamed(last, id)
           == message.content + (Streamed(events[..n], id) + Streamed(last, id));
  }

  lemma OneStreamed(e: Event, id: string, phase: Phase)
    ensures Streamed([e], id) == if e.body.OutputDelta? && e.body.messageId == id then e.body.delta else ""
    ensures PhaseAfter([e], id, phase) ==
            match e.body
            case OutputDelta(messageId, _) => if messageId == id then Phase.Streaming else phase
            case ExecutionCompleted(messageId) => if messageId == id then Phase.Complete else phase
            case ExecutionInterrupted(messageId) => if messageId == id then Phase.Interrupted else phase
            case _ => phase
  {
    assert [e][..0] == [];
    assert Streamed([], id) == "" && PhaseAfter([], id, phase) == phase;
  }

  /** How many of the events accept an execution. */
  function Acceptances(events: seq<Event>): nat {
    if events == [] then 0
    else Acceptances(events[..|events| - 1]) + if events[|events| - 1].body.ExecutionAccepted? then 1 else 0
  }

  /** Messages only ever come in pairs, one pair for each acceptance. */
  lemma {:induction false} ReplayCountsMessages(session: Session, events: seq<Event>)
    ensures |Replay(session, events).messages| == |session.messages| + 2 * Acceptances(events)
  {
    hide ReduceRun, ReplaceDocument;
    if events != [] {
      ReplayCountsMessages(session, events[..|events| - 1]);
    }
  }

  lemma {:induction false} ReplaySplit(session: Session, events: seq<Event>, p: nat)
    requires p <= |events|
    ensures Replay(session, events) == Replay(Replay(session, events[..p]), events[p..])
  {
    hide ReduceSession;
    if p == |events| {
      assert events[..p] == events;
    } else {
      var n := |events| - 1;
      ReplaySplit(session, events[..n], p);
      assert events[..n][..p] == events[..p] && events[..n][p..] == events[p..][..|events[p..]| - 1];
    }
  }

  /** An accepted execution puts its user and its assistant message, in this order, behind all the
      messages there are, and there they stay: with their ids and authors, and the text announced
      followed by what is streamed to them from then on. */
  lemma AcceptanceShows(session: Session, events: seq<Event>, p: nat)
    requires p < |events| && events[p].body.ExecutionAccepted?
    ensures var at, after := |session.messages| + 2 * Acceptances(events[..p]), Replay(session, events).messages;
            && MessageAt(after, at, Streaming(events[p].body.user, events[p + 1..]))
            && MessageAt(after, at + 1, Streaming(events[p].body.assistant, events[p + 1..]))
  {
    hide ReduceSession, MessageAt, Streaming, Replay;
    var before := Replay(session, events[..p]);
    ReplayCountsMessages(session, events[..p]);
    Announced(session, events, p);
    var shown := ReduceSession(before, events[p]);
    ReplaySplit(session, events, p + 1);
    ReplayStreamsText(shown, events[p + 1..], |before.messages|);
    ReplayStreamsText(shown, events[p + 1..], |before.messages| + 1);
  }

  lemma Announced(session: Session, events: seq<Event>, p: nat)
    requires p < |events| && events[p].body.ExecutionAccepted?
    ensures var before, shown := Replay(session, events[..p]), ReduceSession(Replay(session, events[..p]), events[p]);
            && Replay(session, events[..p + 1]) == shown
            && shown.messages == before.messages + [events[p].body.user, events[p].body.assistant]
            && shown.run == events[p].body.started
  {
    assert events[..p + 1][..p] == events[..p];
  }

  /** The status the last acceptance, completion or interruption leaves, else the one before. */
  function StatusAfter(events: seq<Event>, status: SessionStatus): SessionStatus {
    if events == [] then status
    else
      match events[|events| - 1].body
      case ExecutionAccepted(_, _, _) => SessionStatus.Running
      case ExecutionCompleted(_) => SessionStatus.Idle
      case ExecutionInterrupted(_) => SessionStatus.Interrupted
      case _ => StatusAfter(events[..|events| - 1], status)
  }

  /** What else a Session shows after any events: its id and title, the last event's cursor and the
      last status set. */
  lemma {:induction false} ReplayKeepsStatus(session: Session, events: seq<Event>)
    ensures var after := Replay(session, events);
            && after.id == session.id && after.title == session.title
            && after.cursor == (if events == [] then session.cursor else events[|events| - 1].cursor)
            && after.status == StatusAfter(events, session.status)
  {
    hide ReduceRun, ReplaceDocument, UpdateMessage;
    if events != [] {
      ReplayKeepsStatus(session, events[..|events| - 1]);
    }
  }

  // --------------------------------------------------------- the run on screen

  /** No run is announced by the events. */
  predicate SameRun(events: seq<Event>) {
    forall i :: 0 <= i < |events| ==> !events[i].body.ExecutionAccepted?
  }

  function AppendedTo(events: seq<Event>, runId: string): seq<Activity> {
    if events == [] then []
    else
      AppendedTo(events[..|events| - 1], runId) + AppendedBy(events[|events| - 1], runId)
  }

  function AppendedBy(event: Event, runId: string): seq<Activity> {
    if event.body.ActivityAppended? && event.body.runId == runId then [event.body.activity] else []
  }

  /** A task's status after events of a run: the last update that names it, and the end of the run
      for a task still running then. */
  function TaskAfter(events: seq<Event>, runId: string, taskId: string, status: TaskStatus): TaskStatus {
    if events == [] then status
    else
      var before := TaskAfter(events[..|events| - 1], runId, taskId, status);
      match events[|events| - 1].body
      case TasksUpdated(id, updates, _) =>
        if id == runId && UpdateFor(updates, taskId).Some? then UpdateFor(updates, taskId).value else before
      case ExecutionCompleted(_) => if before == TaskStatus.Running then TaskStatus.Completed else before
      case ExecutionInterrupted(_) => if before == TaskStatus.Running then TaskStatus.Cancelled else before
      case _ => before
  }

  function AgentAfter(events: seq<Event>, runId: string, agent: AgentRun): (after: AgentRun)
    ensures after.id == agent.id
  {
    if events == [] then agent
    else
      var before := AgentAfter(events[..|events| - 1], runId, agent);
      match events[|events| - 1].body
      case AgentUpdated(id, agentId, status, summary) =>
        if id != runId || agentId != agent.id then before
        else AgentRun(agent.id, status, if summary.Some? then summary else before.summary)
      case ExecutionCompleted(_) =>
        if before.status == AgentStatus.Running then AgentRun(agent.id, AgentStatus.Completed, before.summary) else before
      case ExecutionInterrupted(_) =>
        if before.status == AgentStatus.Running then AgentRun(agent.id, AgentStatus.Interrupted, before.summary) else before
      case _ => before
  }

  function CurrentTaskAfter(events: seq<Event>, runId: string, current: Option<string>): Option<string> {
    if events == [] then current
    else
      match events[|events| - 1].body
      case TasksUpdated(id, _, task) => if id == runId then task else CurrentTaskAfter(events[..|events| - 1], runId, current)
      case ExecutionCompleted(_) => None
      case _ => CurrentTaskAfter(events[..|events| - 1], runId, current)
  }

  function RunStatusAfter(events: seq<Event>, status: RunStatus): RunStatus {
    if events == [] then status
    else
      match events[|events| - 1].body
      case ExecutionCompleted(_) => RunStatus.Completed
      case ExecutionInterrupted(_) => RunStatus.Interrupted
      case _ => RunStatusAfter(events[..|events| - 1], status)
  }

  predicate HeadFollows(run: Run, after: Run, events: seq<Event>) {
    && after.id == run.id
    && after.status == RunStatusAfter(events, run.status)
    && after.currentTaskId == CurrentTaskAfter(events, run.id, run.currentTaskId)
    && after.activities == run.activities + AppendedTo(events, run.id)
  }

  predicate TasksFollow(run: Run, after: Run, events: seq<Event>) {
    && |after.tasks| == |run.tasks|
    && (forall i :: 0 <= i < |run.tasks| ==>
                      && after.tasks[i].id == run.tasks[i].id && after.tasks[i].title == run.tasks[i].title
                      && after.tasks[i].status == TaskAfter(events, run.id, run.tasks[i].id, run.tasks[i].status))
  }

  predicate AgentsFollow(run: Run, after: Run, events: seq<Event>) {
    && |after.agentRuns| == |run.agentRuns|
    && (forall i :: 0 <= i < |run.agentRuns| ==> after.agentRuns[i] == AgentAfter(events, run.id, run.agentRuns[i]))
  }

  /** Task by task, agent by agent: what a run has become after events that announce no other. */
  predicate Follows(run: Run, after: Run, events: seq<Event>) {
    HeadFollows(run, after, events) && TasksFollow(run, after, events) && AgentsFollow(run, after, events)
  }

  lemma HeadStep(run: Run, before: Run, events: seq<Event>)
    requires events != [] && HeadFollows(run, before, events[..|events| - 1])
    requires !events[|events| - 1].body.ExecutionAccepted?
    ensures var after := ReduceRun(Some(before), events[|events| - 1].body);
            after.Some? && HeadFollows(run, after.value, events)
  {
    hide UpdateFor;
    var n := |events| - 1;
    assert run.activities + (AppendedTo(events[..n], run.id) + AppendedBy(events[n], run.id))
           == run.activities + AppendedTo(events[..n], run.id) + AppendedBy(events[n], run.id);
  }

  lemma TasksStep(run: Run, before: Run, events: seq<Event>)
    requires events != [] && before.id == run.id && TasksFollow(run, before, events[..|events| - 1])
    requires !events[|events| - 1].body.ExecutionAccepted?
    ensures var after := ReduceRun(Some(before), events[|events| - 1].body);
            after.Some? && TasksFollow(run, after.value, events)
  {
    hide UpdateFor;
  }

  lemma AgentsStep(run: Run, before: Run, events: seq<Event>)
    requires events != [] && before.id == run.id && AgentsFollow(run, before, events[..|events| - 1])
    requires !events[|events| - 1].body.ExecutionAccepted?
    ensures var after := ReduceRun(Some(before), events[|events| - 1].body);
            after.Some? && AgentsFollow(run, after.value, events)
  {
    hide UpdateFor;
  }

  lemma FollowsStep(run: Run, before: Run, events: seq<Event>)
    requires events != [] && Follows(run, before, events[..|events| - 1])
    requires !events[|events| - 1].body.ExecutionAccepted?
    ensures var after := ReduceRun(Some(before), events[|events| - 1].body);
            after.Some? && Follows(run, after.value, events)
  {
    hide ReduceRun, TasksFollow, AgentsFollow;
    HeadStep(run, before, events);
    TasksStep(run, before, events);
    AgentsStep(run, before, events);
  }

  /** An event of another run changes nothing, and every event of this one just what it names. */
  lemma {:induction false} ReplayFollows(session: Session, events: seq<Event>)
    requires SameRun(events)
    ensures var after := Replay(session, events).run;
            if session.run.None? then after.None? else after.Some? && Follows(session.run.value, after.value, events)
  {
    hide Follows, ReduceRun;
    if events == [] {
      if session.run.Some? {
        NothingYet(session.run.value);
      }
    } else {
      var n := |events| - 1;
      ReplayFollows(session, events[..n]);
      RunOnly(Replay(session, events[..n]), events[n]);
      if session.run.Some? {
        FollowsStep(session.run.value, Replay(session, events[..n]).run.value, events);
      } else {
        NoRun(events[n].body);
      }
    }
  }

  lemma NothingYet(run: Run)
    ensures Follows(run, run, [])
  {
  }

  lemma NoRun(body: Body)
    requires !body.ExecutionAccepted?
    ensures ReduceRun(None, body).None?
  {
  }

  lemma RunOnly(session: Session, event: Event)
    ensures ReduceSession(session, event).run == ReduceRun(session.run, event.body)
  {
    hide ReduceRun, ReplaceDocument, UpdateMessage;
  }

  /** The run on screen is the one announced last, followed from there on. */
  lemma AcceptedRun(session: Session, events: seq<Event>, p: nat)
    requires p < |events| && events[p].body.ExecutionAccepted? && SameRun(events[p + 1..])
    ensures var started, after := events[p].body.started, Replay(session, events).run;
            if started.None? then after.None? else after.Some? && Follows(started.value, after.value, events[p + 1..])
  {
    hide Follows, ReduceSession, Replay;
    Announced(session, events, p);
    ReplaySplit(session, events, p + 1);
    ReplayFollows(Replay(session, events[..p + 1]), events[p + 1..]);
  }

  /** Of several updates for one task in one event the first wins. */
  lemma {:induction false} FirstUpdateWins(updates: seq<TaskUpdate>, taskId: string)
    ensures UpdateFor(updates, taskId).None? <==> forall i :: 0 <= i < |updates| ==> updates[i].taskId != taskId
    ensures UpdateFor(updates, taskId).Some? ==>
              exists i :: 0 <= i < |updates| && updates[i] == TaskUpdate(taskId, UpdateFor(updates, taskId).value)
                          && forall j :: 0 <= j < i ==> updates[j].taskId != taskId
  {
    if updates != [] && updates[0].taskId != taskId {
      var rest := updates[1..];
      FirstUpdateWins(rest, taskId);
      assert forall i :: 1 <= i < |updates| ==> updates[i] == rest[i - 1];
      if UpdateFor(rest, taskId).Some? {
        var i :| 0 <= i < |rest| && rest[i] == TaskUpdate(taskId, UpdateFor(rest, taskId).value)
                 && forall j :: 0 <= j < i ==> rest[j].taskId != taskId;
        assert updates[i + 1] == rest[i];
      }
    } else if updates != [] {
      assert updates[0] == TaskUpdate(taskId, UpdateFor(updates, taskId).value);
    }
  }

  /** The ids of a run's activities for one task, in the order they came. */
  function IdsFor(activities: seq<Activity>, taskId: string): seq<string> {
    if activities == [] then []
    else
      var last := activities[|activities| - 1];
      IdsFor(activities[..|activities| - 1], taskId) + if last.taskId == taskId then [last.id] else []
  }

  /** Every task lists exactly its own activities. */
  predicate Indexed(run: Option<Run>) {
    run.Some? ==>
      forall i :: 0 <= i < |run.value.tasks| ==>
                    run.value.tasks[i].activityIds == IdsFor(run.value.activities, run.value.tasks[i].id)
  }

  lemma EventKeepsIndex(run: Option<Run>, body: Body)
    requires Indexed(run) && (body.ExecutionAccepted? ==> Indexed(body.started))
    ensures Indexed(ReduceRun(run, body))
  {
    if body.ActivityAppended? && Concerns(run, body.runId) {
      assert (run.value.activities + [body.activity])[..|run.value.activities|] == run.value.activities;
    }
  }

  /** The two places an activity is recorded in never drift apart, over any events, as long as the
      runs announced to the client agree with themselves. */
  lemma {:induction false} ReplayKeepsIndex(session: Session, events: seq<Event>)
    requires Indexed(session.run)
    requires forall e :: e in events && e.body.ExecutionAccepted? ==> Indexed(e.body.started)
    ensures Indexed(Replay(session, events).run)
  {
    hide Indexed, ReduceRun;
    if events != [] {
      ReplayKeepsIndex(session, events[..|events| - 1]);
      assert events[|events| - 1] in events;
      EventKeepsIndex(Replay(session, events[..|events| - 1]).run, events[|events| - 1].body);
    }
  }

  /** Documents keep their places: one that comes again is replaced where it is, a new one goes last. */
  lemma {:induction false} ReplayKeepsPlaces(session: Session, events: seq<Event>)
    ensures var before, after := session.documents, Replay(session, events).documents;
            |before| <= |after| && forall i :: 0 <= i < |before| ==> after[i].id == before[i].id
  {
    hide ReduceRun, UpdateMessage;
    if events != [] {
      ReplayKeepsPlaces(session, events[..|events| - 1]);
      if events[|events| - 1].body.DocumentAvailable? {
        FindsFirst(Replay(session, events[..|events| - 1]).documents, events[|events| - 1].body.document.id);
      }
    }
  }

  predicate DistinctDocuments(documents: seq<Document>) {
    forall i, j :: 0 <= i < j < |documents| ==> documents[i].id != documents[j].id
  }

  function DocumentOf(documents: seq<Document>, id: string): Option<Document> {
    var k := FindDocument(documents, id);
    if k == |documents| then None else Some(documents[k])
  }

  /** The last document with this id among the events. */
  function Latest(events: seq<Event>, id: string): Option<Document> {
    if events == [] then None
    else
      var last := events[|events| - 1].body;
      if last.DocumentAvailable? && last.document.id == id then Some(last.document)
      else Latest(events[..|events| - 1], id)
  }

  lemma {:induction false} FindsFirst(documents: seq<Document>, id: string)
    ensures var k := FindDocument(documents, id);
            && (forall i :: 0 <= i < k ==> documents[i].id != id)
            && (k < |documents| ==> documents[k].id == id)
  {
    if documents != [] && documents[0].id != id {
      FindsFirst(documents[1..], id);
      assert forall i :: 1 <= i < |documents| ==> documents[i] == documents[1..][i - 1];
    }
  }

  lemma Replaced(documents: seq<Document>, incoming: Document, id: string)
    requires DistinctDocuments(documents)
    ensures DistinctDocuments(ReplaceDocument(documents, incoming))
    ensures DocumentOf(ReplaceDocument(documents, incoming), id)
            == if id == incoming.id then Some(incoming) else DocumentOf(documents, id)
  {
    FindsFirst(documents, incoming.id);
    FindsFirst(documents, id);
    var after := ReplaceDocument(documents, incoming);
    FindsFirst(after, id);
    var k, j, found := FindDocument(documents, incoming.id), FindDocument(documents, id), FindDocument(after, id);
    assert after[k] == incoming;
    if id != incoming.id && j < |documents| {
      assert after[j] == documents[j];
    }
    if found < |after| && found != k {
      assert after[found] == documents[found];
    }
  }

  /** After any events a Session shows, under each id, the document that came last, or the one it
      had; and never two with one id. */
  lemma {:induction false} ReplayShowsLatest(session: Session, events: seq<Event>, id: string)
    requires DistinctDocuments(session.documents)
    ensures DistinctDocuments(Replay(session, events).documents)
    ensures DocumentOf(Replay(session, events).documents, id)
            == if Latest(events, id).Some? then Latest(events, id) else DocumentOf(session.documents, id)
  {
    hide DistinctDocuments, DocumentOf, ReplaceDocument, ReduceRun;
    if events != [] {
      var before, last := Replay(session, events[..|events| - 1]), events[|events| - 1].body;
      ReplayShowsLatest(session, events[..|events| - 1], id);
      if last.DocumentAvailable? {
        Replaced(before.documents, last.document, id);
      }
    }
  }
}
