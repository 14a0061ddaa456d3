/**
 The deterministic control-flow scenarios of scenarios/coding/control_flow_session.py: a
 scripted session that keeps counters beside an event log, in a normal mode and in the mode
 that replays the historical repeated-cancellation bug.
 */
module ScenarioRunner {
  import opened Options

  datatype Event =
    | StepTaken(index: nat)
    | MessageStart(text: string)
    | ToolStart
    | StreamStart
    | ToolEnd(isError: bool)
    | MessageEnd(text: string)
    | AgentEnd
    | SteerControl(text: string)
    | FollowControl(text: string)
    | AbortControl(prompt: string)
    | Asserted(name: string)

  datatype Kind = StepKind | PromptKind | ToolStartKind | StreamKind | ToolEndKind | CompletionKind
                | CancelKind | SteerKind | FollowKind | AbortKind | AssertKind

  function KindOf(e: Event): Kind {
    match e
    case StepTaken(_) => StepKind
    case MessageStart(_) => PromptKind
    case ToolStart => ToolStartKind
    case StreamStart => StreamKind
    case ToolEnd(_) => ToolEndKind
    case MessageEnd(_) => CompletionKind
    case AgentEnd => CancelKind
    case SteerControl(_) => SteerKind
    case FollowControl(_) => FollowKind
    case AbortControl(_) => AbortKind
    case Asserted(_) => AssertKind
  }

  /** `event.get("type")`. */
  function TypeOf(e: Event): Option<string> {
    match e
    case MessageStart(_) => Some("message_start")
    case ToolStart => Some("tool_execution_start")
    case StreamStart => Some("provider_stream_start")
    case ToolEnd(_) => Some("tool_execution_end")
    case MessageEnd(_) => Some("message_end")
    case AgentEnd => Some("agent_end")
    case _ => None
  }

  datatype ActiveRun = ActiveRun(prompt: string, tool: bool, stream: bool)

  datatype State = State(
    simulateBug: bool,
    activeRun: Option<ActiveRun>,
    events: seq<Event>,
    assistantTexts: seq<string>,
    errors: seq<string>,
    steers: seq<string>,
    follows: seq<string>,
    modelCalls: nat,
    interruptions: nat,
    toolStarts: nat,
    toolEnds: nat,
    streamStarts: nat,
    cancelled: nat)

  datatype Expected = TextContains(text: string) | Counter(name: string, value: int)

  /** A step as written: any of its keys may be present; the first one in the runner's order counts. */
  datatype Step = Step(
    prompt: Option<string>, hold: bool, tool: bool, stream: bool,
    steer: Option<string>, follow: Option<string>, abort: bool, complete: Option<string>,
    waitFor: Option<string>, expectation: Option<Option<seq<Expected>>>)

  datatype Failure =
    | Busy(prompt: string)
    | NeedsRun(what: string, text: string)
    | NotObserved(eventType: string)
    | ExpectNotObject
    | TextMissing(text: string)
    | Mismatch(name: string, value: int)
    | UnknownStep

  const CANCEL_REPEATS: nat := 20
  const CANCELLED_TEXT := "Request cancelled."

  // ------------------------------------------------------------ step functions

  function Emit(s: State, e: Event): State {
    s.(events := s.events + [e])
  }

  function EndTool(s: State, isError: bool): State
    requires s.activeRun.Some?
  {
    if s.activeRun.value.tool then Emit(s.(toolEnds := s.toolEnds + 1), ToolEnd(isError)) else s
  }

  function Complete(s: State, text: string): (State, seq<Failure>) {
    if s.activeRun.None? then (s, [NeedsRun("complete", text)])
    else
      var ended := EndTool(s, false);
      (Emit(ended.(assistantTexts := s.assistantTexts + [text]), MessageEnd(text)).(activeRun := None), [])
  }

  function Prompt(s: State, prompt: string, step: Step): (State, seq<Failure>) {
    if s.activeRun.Some? then (s, [Busy(s.activeRun.value.prompt)])
    else
      var started := StartStream(StartTool(StartModel(s, prompt, step)));
      if step.hold then (started, []) else Complete(started, "ok: " + prompt)
  }

  function StartModel(s: State, prompt: string, step: Step): State {
    Emit(s.(modelCalls := s.modelCalls + 1), MessageStart(prompt))
      .(activeRun := Some(ActiveRun(prompt, step.tool, step.stream)))
  }

  function StartTool(s: State): State
    requires s.activeRun.Some?
  {
    if s.activeRun.value.tool then Emit(s.(toolStarts := s.toolStarts + 1), ToolStart) else s
  }

  function StartStream(s: State): State
    requires s.activeRun.Some?
  {
    if s.activeRun.value.stream then Emit(s.(streamStarts := s.streamStarts + 1), StreamStart) else s
  }

  function SteerRun(s: State, text: string): (State, seq<Failure>) {
    if s.activeRun.None? then (s, [NeedsRun("steer", text)])
    else (Emit(s.(steers := s.steers + [text]), SteerControl(text)), [])
  }

  function FollowRun(s: State, text: string): (State, seq<Failure>) {
    if s.activeRun.None? then (s, [NeedsRun("follow", text)])
    else (Emit(s.(follows := s.follows + [text]), FollowControl(text)), [])
  }

  /** The repeated cancellations of the bug replay. */
  function CancelTimes(s: State, n: nat): State {
    if n == 0 then s
    else
      var t := CancelTimes(s, n - 1);
      Emit(t.(cancelled := t.cancelled + 1, errors := t.errors + [CANCELLED_TEXT]), AgentEnd)
  }

  lemma {:induction false} CancelKeepsRun(s: State, n: nat)
    ensures CancelTimes(s, n).activeRun == s.activeRun
  {
    if n > 0 {
      CancelKeepsRun(s, n - 1);
    }
  }

  function AbortRun(s: State): (State, seq<Failure>) {
    if s.activeRun.None? then (s, [NeedsRun("abort", "")])
    else
      var a := Emit(s.(interruptions := s.interruptions + 1), AbortControl(s.activeRun.value.prompt));
      CancelKeepsRun(a, CANCEL_REPEATS);
      if s.simulateBug then (EndTool(CancelTimes(a, CANCEL_REPEATS), true).(activeRun := None), [])
      else (a.(activeRun := None), [])
  }

  predicate Observed(events: seq<Event>, eventType: string) {
    exists i :: 0 <= i < |events| && TypeOf(events[i]) == Some(eventType)
  }

  function WaitFor(s: State, eventType: string): (State, seq<Failure>) {
    if Observed(s.events, eventType) then (Emit(s, Asserted("wait_for")), []) else (s, [NotObserved(eventType)])
  }

  /** `getattr(state, name, None)` where it is a number. */
  function CounterOf(s: State, name: string): Option<int> {
    if name == "model_call_count" then Some(s.modelCalls)
    else if name == "interruption_count" then Some(s.interruptions)
    else if name == "tool_start_count" then Some(s.toolStarts)
    else if name == "tool_end_count" then Some(s.toolEnds)
    else if name == "provider_stream_start_count" then Some(s.streamStarts)
    else if name == "request_cancelled_count" then Some(s.cancelled)
    else if name == "simulate_bug" then Some(One(s.simulateBug))
    else if name == "steer_count" then Some(|s.steers|)
    else if name == "follow_count" then Some(|s.follows|)
    else None
  }

  function AssistantText(texts: seq<string>): string {
    if texts == [] then "" else if |texts| == 1 then texts[0] else AssistantText(texts[..|texts| - 1]) + "\n" + texts[|texts| - 1]
  }

  predicate Contains(text: string, part: string) {
    exists i :: 0 <= i <= |text| && part <= text[i..]
  }

  function Expectation(s: State, x: Expected): seq<Failure> {
    match x
    case TextContains(text) => if Contains(AssistantText(s.assistantTexts), text) then [] else [TextMissing(text)]
    case Counter(name, value) => if CounterOf(s, name) == Some(value) then [] else [Mismatch(name, value)]
  }

  function NameOf(x: Expected): string {
    match x
    case TextContains(_) => "assistant_text_contains"
    case Counter(name, _) => name
  }

  function Expect(s: State, xs: seq<Expected>): (State, seq<Failure>) {
    if xs == [] then (s, [])
    else
      var (t, failures) := Expect(s, xs[..|xs| - 1]);
      var x := xs[|xs| - 1];
      (Emit(t, Asserted(NameOf(x))), failures + Expectation(t, x))
  }

  /** `run_step`. */
  function RunStep(s0: State, step: Step, index: nat): (State, seq<Failure>) {
    var s := Emit(s0, StepTaken(index));
    if step.prompt.Some? then Prompt(s, step.prompt.value, step)
    else if step.steer.Some? then SteerRun(s, step.steer.value)
    else if step.follow.Some? then FollowRun(s, step.follow.value)
    else if step.abort then AbortRun(s)
    else if step.complete.Some? then Complete(s, step.complete.value)
    else if step.waitFor.Some? then WaitFor(s, step.waitFor.value)
    else if step.expectation.Some? then
      if step.expectation.value.None? then (s, [ExpectNotObject]) else Expect(s, step.expectation.value.value)
    else (s, [UnknownStep])
  }

  // --------------------------------------------------------------- accounting

  function Count(events: seq<Event>, k: Kind): nat {
    if events == [] then 0
    else Count(events[..|events| - 1], k) + if KindOf(events[|events| - 1]) == k then 1 else 0
  }

  /** What the log alone says: is a run on, does it hold a tool, how many tools were cut off. */
  datatype Reading = Reading(active: bool, tool: bool, toolAborts: nat)

  function Read(events: seq<Event>): Reading {
    if events == [] then Reading(false, false, 0)
    else
      ReadOn(Read(events[..|events| - 1]), events[|events| - 1])
  }

  function ReadOn(r: Reading, e: Event): Reading {
    match e
    case MessageStart(_) => r.(active := true, tool := false)
    case ToolStart => r.(tool := true)
    case ToolEnd(_) => r.(tool := false)
    case MessageEnd(_) => r.(active := false, tool := false)
    case AbortControl(_) => Reading(false, false, r.toolAborts + if r.tool then 1 else 0)
    case _ => r
  }

  function One(b: bool): nat {
    if b then 1 else 0
  }

  /** Counters, lists and active run agree with the log. */
  predicate MatchesLog(s: State) {
    && s.modelCalls == Count(s.events, PromptKind)
    && |s.assistantTexts| == Count(s.events, CompletionKind)
    && s.interruptions == Count(s.events, AbortKind)
    && s.toolStarts == Count(s.events, ToolStartKind)
    && s.toolEnds == Count(s.events, ToolEndKind)
    && s.streamStarts == Count(s.events, StreamKind)
    && s.cancelled == |s.errors| == Count(s.events, CancelKind)
    && |s.steers| == Count(s.events, SteerKind)
    && |s.follows| == Count(s.events, FollowKind)
    && Read(s.events).active == s.activeRun.Some?
    && Read(s.events).tool == (s.activeRun.Some? && s.activeRun.value.tool)
  }

  /** The books balance. */
  predicate Balanced(s: State) {
    var tool := s.activeRun.Some? && s.activeRun.value.tool;
    && s.modelCalls == |s.assistantTexts| + s.interruptions + One(s.activeRun.Some?)
    && (if s.simulateBug
        then s.toolStarts == s.toolEnds + One(tool) && s.cancelled == 20 * s.interruptions
        else s.toolStarts == s.toolEnds + Read(s.events).toolAborts + One(tool) && s.cancelled == 0)
  }

  lemma Emitted(s: State, e: Event)
    ensures forall k :: Count(Emit(s, e).events, k) == Count(s.events, k) + One(KindOf(e) == k)
    ensures Read(Emit(s, e).events) == ReadOn(Read(s.events), e)
  {
    assert Emit(s, e).events[..|s.events|] == s.events;
  }

  lemma {:induction false} CancelTimesEffect(s: State, n: nat)
    ensures var t := CancelTimes(s, n);
            && t == s.(cancelled := s.cancelled + n, errors := t.errors, events := t.events)
            && |t.errors| == |s.errors| + n
            && (forall k :: Count(t.events, k) == Count(s.events, k) + if k == CancelKind then n else 0)
            && Read(t.events) == Read(s.events)
  {
    if n > 0 {
      CancelTimesEffect(s, n - 1);
      Emitted(CancelTimes(s, n - 1), AgentEnd);
    }
  }

  predicate Good(s: State) {
    MatchesLog(s) && Balanced(s)
  }

  lemma EndToolEffect(s: State, isError: bool)
    requires s.activeRun.Some?
    ensures var t := EndTool(s, isError);
            && t == s.(toolEnds := s.toolEnds + One(s.activeRun.value.tool), events := t.events)
            && (forall k :: Count(t.events, k) == Count(s.events, k) + if s.activeRun.value.tool && k == ToolEndKind then 1 else 0)
            && Read(t.events) == if s.activeRun.value.tool then Read(s.events).(tool := false) else Read(s.events)
  {
    hide Count, Read;
    Emitted(s, ToolEnd(isError));
  }

  lemma CompleteGood(s: State, text: string)
    requires Good(s)
    ensures Good(Complete(s, text).0)
  {
    hide Count, Read, EndTool;
    if s.activeRun.Some? {
      EndToolEffect(s, false);
      Emitted(EndTool(s, false), MessageEnd(text));
    }
  }

  lemma PromptGood(s: State, prompt: string, step: Step)
    requires Good(s)
    ensures Good(Prompt(s, prompt, step).0)
  {
    hide Count, Read, MatchesLog, Balanced, Complete, StartModel, StartTool, StartStream;
    if s.activeRun.None? {
      var a := StartGood(s, prompt, step);
      CompleteGood(a, "ok: " + prompt);
    }
  }

  lemma StartGood(s: State, prompt: string, step: Step) returns (a: State)
    requires Good(s) && s.activeRun.None?
    ensures StartModel(s, prompt, step).activeRun.Some? && StartTool(StartModel(s, prompt, step)).activeRun.Some?
    ensures a == StartStream(StartTool(StartModel(s, prompt, step))) && Good(a)
  {
    hide Count, Read;
    Emitted(s, MessageStart(prompt));
    var m := StartModel(s, prompt, step);
    Emitted(m, ToolStart);
    var t := StartTool(m);
    Emitted(t, StreamStart);
    a := StartStream(t);
  }

  lemma AbortGood(s: State)
    requires Good(s)
    ensures Good(AbortRun(s).0)
  {
    hide Count, Read, CancelTimes, EndTool;
    if s.activeRun.Some? {
      if s.simulateBug {
        BugAbortGood(s);
      } else {
        Emitted(s, AbortControl(s.activeRun.value.prompt));
      }
    }
  }

  lemma BugAbortGood(s: State)
    requires Good(s) && s.activeRun.Some? && s.simulateBug
    ensures Good(AbortRun(s).0)
  {
    hide Count, Read, AbortRun, MatchesLog;
    BugAbortEffect(s);
    BugAbortMatches(s);
  }

  lemma BugAbortMatches(s: State)
    requires MatchesLog(s) && s.activeRun.Some? && s.simulateBug
    ensures MatchesLog(AbortRun(s).0)
  {
    hide Count, Read, AbortRun;
    BugAbortEffect(s);
  }

  /** All that an interruption does in the bug replay: 20 cancellations, and an error end for the tool. */
  lemma BugAbortEffect(s: State)
    requires s.activeRun.Some? && s.simulateBug
    ensures var t := AbortRun(s).0;
            var tool := s.activeRun.value.tool;
            && t == s.(activeRun := None, events := t.events, errors := t.errors, interruptions := s.interruptions + 1,
                       cancelled := s.cancelled + CANCEL_REPEATS, toolEnds := s.toolEnds + One(tool))
            && |t.errors| == |s.errors| + CANCEL_REPEATS
            && (forall k :: Count(t.events, k) == Count(s.events, k)
                  + match k case AbortKind => 1 case CancelKind => CANCEL_REPEATS case ToolEndKind => One(tool) case _ => 0)
            && !Read(t.events).active && !Read(t.events).tool
  {
    hide Count, Read, CancelTimes, EndTool;
    var a := Emit(s.(interruptions := s.interruptions + 1), AbortControl(s.activeRun.value.prompt));
    Emitted(s, AbortControl(s.activeRun.value.prompt));
    CancelTimesEffect(a, CANCEL_REPEATS);
    EndToolEffect(CancelTimes(a, CANCEL_REPEATS), true);
  }

  lemma QuietGood(s: State, e: Event)
    requires Good(s) && (e.StepTaken? || e.Asserted?)
    ensures Good(Emit(s, e))
  {
    hide Count, Read;
    Emitted(s, e);
  }

  lemma {:induction false} ExpectGood(s: State, xs: seq<Expected>)
    requires Good(s)
    ensures Good(Expect(s, xs).0)
    ensures Expect(s, xs).0 == s.(events := Expect(s, xs).0.events)
  {
    hide Good;
    if xs != [] {
      ExpectGood(s, xs[..|xs| - 1]);
      QuietGood(Expect(s, xs[..|xs| - 1]).0, Asserted(NameOf(xs[|xs| - 1])));
    }
  }

  lemma ControlGood(s: State, text: string)
    requires Good(s)
    ensures Good(SteerRun(s, text).0) && Good(FollowRun(s, text).0)
  {
    hide Count, Read;
    Emitted(s, SteerControl(text));
    Emitted(s, FollowControl(text));
  }

  lemma StepGood(s0: State, step: Step, index: nat)
    requires Good(s0)
    ensures Good(RunStep(s0, step, index).0)
  {
    hide Good, Prompt, SteerRun, FollowRun, AbortRun, Complete, Expect;
    var s := Emit(s0, StepTaken(index));
    QuietGood(s0, StepTaken(index));
    if step.prompt.Some? {
      PromptGood(s, step.prompt.value, step);
    } else if step.steer.Some? {
      ControlGood(s, step.steer.value);
    } else if step.follow.Some? {
      ControlGood(s, step.follow.value);
    } else if step.abort {
      AbortGood(s);
    } else if step.complete.Some? {
      CompleteGood(s, step.complete.value);
    } else if step.waitFor.Some? {
      QuietGood(s, Asserted("wait_for"));
    } else if step.expectation.Some? && step.expectation.value.Some? {
      ExpectGood(s, step.expectation.value.value);
    }
  }

  /** A step that fails changes nothing but the log: no counter, no list, no active run. */
  lemma FailedStepIsInert(s: State, step: Step, index: nat)
    requires RunStep(s, step, index).1 != []
    ensures RunStep(s, step, index).0 == s.(events := RunStep(s, step, index).0.events)
  {
    hide CancelTimes, Contains;
    if step.expectation.Some? && step.expectation.value.Some? {
      ExpectFrame(Emit(s, StepTaken(index)), step.expectation.value.value);
    }
  }

  lemma {:induction false} ExpectFrame(s: State, xs: seq<Expected>)
    ensures Expect(s, xs).0 == s.(events := Expect(s, xs).0.events)
  {
    if xs != [] {
      ExpectFrame(s, xs[..|xs| - 1]);
    }
  }

  // ------------------------------------------------------------ the session

  function Fresh(simulateBug: bool): State {
    State(simulateBug, None, [], [], [], [], [], 0, 0, 0, 0, 0, 0)
  }

  /** The steps a scenario gets through: all of them, or up to the first failing one. */
  function RunSteps(s: State, steps: seq<Step>, keepGoing: bool): (State, seq<Failure>) {
    if steps == [] then (s, [])
    else
      var (t, failures) := RunSteps(s, steps[..|steps| - 1], keepGoing);
      if failures != [] && !keepGoing then (t, failures)
      else
        var (u, more) := RunStep(t, steps[|steps| - 1], |steps|);
        (u, failures + more)
  }

  lemma {:induction false} StepsGood(simulateBug: bool, steps: seq<Step>, keepGoing: bool)
    ensures Good(RunSteps(Fresh(simulateBug), steps, keepGoing).0)
  {
    hide Good, RunStep;
    if steps == [] {
      FreshGood(simulateBug);
    } else {
      StepsGood(simulateBug, steps[..|steps| - 1], keepGoing);
      StepGood(RunSteps(Fresh(simulateBug), steps[..|steps| - 1], keepGoing).0, steps[|steps| - 1], |steps|);
    }
  }

  lemma StepKeepsMode(s0: State, step: Step, index: nat)
    ensures RunStep(s0, step, index).0.simulateBug == s0.simulateBug
  {
    hide CancelTimes, Observed, Expect, Count, Read;
    var s := Emit(s0, StepTaken(index));
    if s.activeRun.Some? {
      CancelTimesEffect(Emit(s.(interruptions := s.interruptions + 1), AbortControl(s.activeRun.value.prompt)), CANCEL_REPEATS);
    }
    if step.expectation.Some? && step.expectation.value.Some? {
      ExpectFrame(s, step.expectation.value.value);
    }
  }

  lemma {:induction false} ModeStays(simulateBug: bool, steps: seq<Step>, keepGoing: bool)
    ensures RunSteps(Fresh(simulateBug), steps, keepGoing).0.simulateBug == simulateBug
  {
    hide RunStep;
    if steps != [] {
      ModeStays(simulateBug, steps[..|steps| - 1], keepGoing);
      StepKeepsMode(RunSteps(Fresh(simulateBug), steps[..|steps| - 1], keepGoing).0, steps[|steps| - 1], |steps|);
    }
  }

  /** The scenarios' expectation of no cancelled request tells the two modes apart: after any steps
      it holds unless the replayed bug is on and some run has been interrupted. */
  lemma BugShows(simulateBug: bool, steps: seq<Step>, keepGoing: bool)
    ensures var s := RunSteps(Fresh(simulateBug), steps, keepGoing).0;
            Expectation(s, Counter("request_cancelled_count", 0)) == [] <==> !simulateBug || s.interruptions == 0
  {
    hide RunSteps, MatchesLog;
    StepsGood(simulateBug, steps, keepGoing);
    ModeStays(simulateBug, steps, keepGoing);
  }

  lemma FreshGood(simulateBug: bool)
    ensures Good(Fresh(simulateBug))
  {
  }

  class ScenarioState {
    const simulateBug: bool
    var activeRun: Option<ActiveRun>
    var events: seq<Event>
    var assistantTexts: seq<string>
    var errors: seq<string>
    var steers: seq<string>
    var follows: seq<string>
    var modelCalls: nat
    var interruptions: nat
    var toolStarts: nat
    var toolEnds: nat
    var streamStarts: nat
    var cancelled: nat

    function Now(): State
      reads this
    {
      State(simulateBug, activeRun, events, assistantTexts, errors, steers, follows,
            modelCalls, interruptions, toolStarts, toolEnds, streamStarts, cancelled)
    }

    constructor (simulateBug: bool)
      ensures Now() == Fresh(simulateBug)
    {
      this.simulateBug := simulateBug;
      activeRun, events, assistantTexts, errors, steers, follows := None, [], [], [], [], [];
      modelCalls, interruptions, toolStarts, toolEnds, streamStarts, cancelled := 0, 0, 0, 0, 0, 0;
    }

    method EmitEvent(e: Event)
      modifies this`events
      ensures events == old(events) + [e]
    {
      events := events + [e];
    }

    method OnComplete(text: string) returns (failures: seq<Failure>)
      modifies this
      ensures (Now(), failures) == Complete(old(Now()), text)
    {
      if activeRun.None? {
        return [NeedsRun("complete", text)];
      }
      if activeRun.value.tool {
        toolEnds := toolEnds + 1;
        EmitEvent(ToolEnd(false));
      }
      assistantTexts := assistantTexts + [text];
      EmitEvent(MessageEnd(text));
      activeRun := None;
      failures := [];
    }

    method OnPrompt(prompt: string, step: Step) returns (failures: seq<Failure>)
      modifies this
      ensures (Now(), failures) == Prompt(old(Now()), prompt, step)
    {
      if activeRun.Some? {
        return [Busy(activeRun.value.prompt)];
      }
      hide Complete;
      modelCalls := modelCalls + 1;
      EmitEvent(MessageStart(prompt));
      activeRun := Some(ActiveRun(prompt, step.tool, step.stream));
      assert Now() == StartModel(old(Now()), prompt, step);
      if step.tool {
        toolStarts := toolStarts + 1;
        EmitEvent(ToolStart);
      }
      assert Now() == StartTool(StartModel(old(Now()), prompt, step));
      if step.stream {
        streamStarts := streamStarts + 1;
        EmitEvent(StreamStart);
      }
      assert Now() == StartStream(StartTool(StartModel(old(Now()), prompt, step)));
      if !step.hold {
        failures := OnComplete("ok: " + prompt);
        return;
      }
      failures := [];
    }

    method OnSteer(text: string) returns (failures: seq<Failure>)
      modifies this
      ensures (Now(), failures) == SteerRun(old(Now()), text)
    {
      if activeRun.None? {
        return [NeedsRun("steer", text)];
      }
      steers := steers + [text];
      EmitEvent(SteerControl(text));
      failures := [];
    }

    method OnFollow(text: string) returns (failures: seq<Failure>)
      modifies this
      ensures (Now(), failures) == FollowRun(old(Now()), text)
    {
      if activeRun.None? {
        return [NeedsRun("follow", text)];
      }
      follows := follows + [text];
      EmitEvent(FollowControl(text));
      failures := [];
    }

    method CancelLoop()
      modifies this
      ensures Now() == CancelTimes(old(Now()), CANCEL_REPEATS)
      ensures activeRun == old(activeRun)
    {
      for i := 0 to CANCEL_REPEATS
        invariant Now() == CancelTimes(old(Now()), i)
        invariant activeRun == old(activeRun)
      {
        cancelled := cancelled + 1;
        errors := errors + [CANCELLED_TEXT];
        EmitEvent(AgentEnd);
      }
    }

    method OnAbort() returns (failures: seq<Failure>)
      modifies this
      ensures (Now(), failures) == AbortRun(old(Now()))
    {
      if activeRun.None? {
        return [NeedsRun("abort", "")];
      }
      hide CancelTimes;
      interruptions := interruptions + 1;
      EmitEvent(AbortControl(activeRun.value.prompt));
      if simulateBug {
        CancelLoop();
        if activeRun.value.tool {
          toolEnds := toolEnds + 1;
          EmitEvent(ToolEnd(true));
        }
      }
      activeRun := None;
      failures := [];
    }

    method OnWaitFor(eventType: string) returns (failures: seq<Failure>)
      modifies this
      ensures (Now(), failures) == WaitFor(old(Now()), eventType)
    {
      if Observed(events, eventType) {
        EmitEvent(Asserted("wait_for"));
        return [];
      }
      failures := [NotObserved(eventType)];
    }

    method OnExpect(xs: seq<Expected>) returns (failures: seq<Failure>)
      modifies this
      ensures (Now(), failures) == Expect(old(Now()), xs)
    {
      failures := [];
      for i := 0 to |xs|
        invariant (Now(), failures) == Expect(old(Now()), xs[..i])
      {
        assert xs[..i + 1][..i] == xs[..i];
        failures := failures + Expectation(Now(), xs[i]);
        EmitEvent(Asserted(NameOf(xs[i])));
      }
      assert xs[..|xs|] == xs;
    }

    method Take(step: Step, index: nat) returns (failures: seq<Failure>)
      modifies this
      ensures (Now(), failures) == RunStep(old(Now()), step, index)
    {
      EmitEvent(StepTaken(index));
      if step.prompt.Some? {
        failures := OnPrompt(step.prompt.value, step);
      } else if step.steer.Some? {
        failures := OnSteer(step.steer.value);
      } else if step.follow.Some? {
        failures := OnFollow(step.follow.value);
      } else if step.abort {
        failures := OnAbort();
      } else if step.complete.Some? {
        failures := OnComplete(step.complete.value);
      } else if step.waitFor.Some? {
        failures := OnWaitFor(step.waitFor.value);
      } else if step.expectation.Some? {
        if step.expectation.value.None? {
          return [ExpectNotObject];
        }
        failures := OnExpect(step.expectation.value.value);
      } else {
        failures := [UnknownStep];
      }
    }
  }

  /** `run_scenario`: whether the case passes. Every run it leaves behind balances, and a case
      that passes leaves no run open, so each accepted prompt was completed or interrupted. */
  method RunScenario(simulateBug: bool, steps: seq<Step>, keepGoing: bool) returns (state: ScenarioState, passed: bool)
    ensures fresh(state)
    ensures var (last, failures) := RunSteps(Fresh(simulateBug), steps, keepGoing);
            state.Now() == last && (passed <==> failures == [] && last.activeRun.None?)
    ensures Good(state.Now())
    ensures passed ==> state.modelCalls == |state.assistantTexts| + state.interruptions
  {
    hide Good, RunStep;
    state := new ScenarioState(simulateBug);
    var failures: seq<Failure> := [];
    var i := 0;
    while i < |steps| && (failures == [] || keepGoing)
      invariant 0 <= i <= |steps|
      invariant (state.Now(), failures) == RunSteps(Fresh(simulateBug), steps[..i], keepGoing)
    {
      assert steps[..i + 1][..i] == steps[..i];
      var more := state.Take(steps[i], i + 1);
      failures := failures + more;
      i := i + 1;
    }
    StoppedEarly(Fresh(simulateBug), steps, keepGoing, i);
    StepsGood(simulateBug, steps, keepGoing);
    passed := failures == [] && state.activeRun.None?;
    PassedBalance(state.Now());
  }

  lemma PassedBalance(s: State)
    requires Good(s)
    ensures s.activeRun.None? ==> s.modelCalls == |s.assistantTexts| + s.interruptions
  {
  }

  /** Steps after a failure are not run unless asked for. */
  lemma {:induction false} StoppedEarly(s: State, steps: seq<Step>, keepGoing: bool, i: nat)
    requires i <= |steps|
    requires i == |steps| || (RunSteps(s, steps[..i], keepGoing).1 != [] && !keepGoing)
    ensures RunSteps(s, steps, keepGoing) == RunSteps(s, steps[..i], keepGoing)
  {
    hide RunStep;
    if i == |steps| {
      assert steps[..i] == steps;
    } else {
      var shorter := steps[..|steps| - 1];
      assert shorter[..i] == steps[..i];
      StoppedEarly(s, shorter, keepGoing, i);
    }
  }

  // ------------------------------------------------------- what the log records

  /** The texts of the logged events of one kind, in order. */
  function Texts(events: seq<Event>, kind: Kind): seq<string> {
    if events == [] then []
    else
      Texts(events[..|events| - 1], kind)
      + match events[|events| - 1]
        case MessageStart(text) => if kind == PromptKind then [text] else []
        case MessageEnd(text) => if kind == CompletionKind then [text] else []
        case SteerControl(text) => if kind == SteerKind then [text] else []
        case FollowControl(text) => if kind == FollowKind then [text] else []
        case _ => []
  }

  /** The lists hold the texts the log has, the errors are all cancellations, and a run that is on is
      the one whose prompt was logged last. */
  predicate ListsMatch(s: State) {
    && s.assistantTexts == Texts(s.events, CompletionKind)
    && s.steers == Texts(s.events, SteerKind)
    && s.follows == Texts(s.events, FollowKind)
    && (forall i :: 0 <= i < |s.errors| ==> s.errors[i] == "Request cancelled.")
    && (s.activeRun.Some? ==>
          var prompts := Texts(s.events, PromptKind);
          prompts != [] && prompts[|prompts| - 1] == s.activeRun.value.prompt)
  }

  lemma TextsEmitted(s: State, e: Event)
    ensures forall k :: Texts(Emit(s, e).events, k) == Texts(s.events, k)
                          + match e
                            case MessageStart(text) => (if k == PromptKind then [text] else [])
                            case MessageEnd(text) => (if k == CompletionKind then [text] else [])
                            case SteerControl(text) => (if k == SteerKind then [text] else [])
                            case FollowControl(text) => (if k == FollowKind then [text] else [])
                            case _ => []
  {
    assert Emit(s, e).events[..|s.events|] == s.events;
  }

  /** The events a step appends behind its own, read off the step and the state before it. */
  function Trace(s: State, step: Step): seq<Event> {
    var on := s.activeRun.Some?;
    var tool := on && s.activeRun.value.tool;
    if step.prompt.Some? then
      if on then []
      else [MessageStart(step.prompt.value)] + (if step.tool then [ToolStart] else []) + (if step.stream then [StreamStart] else [])
           + if step.hold then [] else (if step.tool then [ToolEnd(false)] else []) + [MessageEnd("ok: " + step.prompt.value)]
    else if step.steer.Some? then (if on then [SteerControl(step.steer.value)] else [])
    else if step.follow.Some? then (if on then [FollowControl(step.follow.value)] else [])
    else if step.abort then
      if !on then []
      else [AbortControl(s.activeRun.value.prompt)]
           + if s.simulateBug then seq(20, _ => AgentEnd) + (if tool then [ToolEnd(true)] else []) else []
    else if step.complete.Some? then (if on then (if tool then [ToolEnd(false)] else []) + [MessageEnd(step.complete.value)] else [])
    else if step.waitFor.Some? then (if Logged(s.events, step.waitFor.value) then [Asserted("wait_for")] else [])
    else if step.expectation.Some? && step.expectation.value.Some? then
      NamesLogged(step.expectation.value.value)
    else []
  }

  /** An event of this type has been logged. */
  predicate Logged(events: seq<Event>, eventType: string) {
    exists i :: 0 <= i < |events| &&
                match events[i]
                case MessageStart(_) => eventType == "message_start"
                case ToolStart => eventType == "tool_execution_start"
                case StreamStart => eventType == "provider_stream_start"
                case ToolEnd(_) => eventType == "tool_execution_end"
                case MessageEnd(_) => eventType == "message_end"
                case AgentEnd => eventType == "agent_end"
                case _ => false
  }

  /** Which steps fail: a prompt while a run is on, a control or a completion while none is, a wait
      for what has not been logged, an expectation that is none or does not hold, and a step of no
      known kind. */
  predicate Fails(s: State, step: Step) {
    if step.prompt.Some? then s.activeRun.Some?
    else if step.steer.Some? || step.follow.Some? || step.abort || step.complete.Some? then s.activeRun.None?
    else if step.waitFor.Some? then !Logged(s.events, step.waitFor.value)
    else if step.expectation.Some? then
      step.expectation.value.None?
      || SomeFails(s, step.expectation.value.value)
    else true
  }

  /** The step states expectations, each of which may fail. */
  predicate Expects(step: Step) {
    && step.prompt.None? && step.steer.None? && step.follow.None? && !step.abort && step.complete.None? && step.waitFor.None?
    && step.expectation.Some? && step.expectation.value.Some?
  }

  /** What any other step complains of when it fails. */
  function Complaint(s: State, step: Step): Failure {
    if step.prompt.Some? then (if s.activeRun.Some? then Busy(s.activeRun.value.prompt) else UnknownStep)
    else if step.steer.Some? then NeedsRun("steer", step.steer.value)
    else if step.follow.Some? then NeedsRun("follow", step.follow.value)
    else if step.abort then NeedsRun("abort", "")
    else if step.complete.Some? then NeedsRun("complete", step.complete.value)
    else if step.waitFor.Some? then NotObserved(step.waitFor.value)
    else if step.expectation.Some? then ExpectNotObject
    else UnknownStep
  }

  lemma ObservedIsLogged(events: seq<Event>, index: nat, eventType: string)
    ensures Observed(events + [StepTaken(index)], eventType) <==> Logged(events, eventType)
  {
    var all := events + [StepTaken(index)];
    if i :| 0 <= i < |all| && TypeOf(all[i]) == Some(eventType) {
      assert all[i] == events[i];
    }
    if Logged(events, eventType) {
      var i :| 0 <= i < |events| &&
               match events[i]
               case MessageStart(_) => eventType == "message_start"
               case ToolStart => eventType == "tool_execution_start"
               case StreamStart => eventType == "provider_stream_start"
               case ToolEnd(_) => eventType == "tool_execution_end"
               case MessageEnd(_) => eventType == "message_end"
               case AgentEnd => eventType == "agent_end"
               case _ => false;
      assert TypeOf(all[i]) == Some(eventType);
    }
  }

  lemma {:induction false} CancelTimesLog(s: State, n: nat)
    ensures CancelTimes(s, n).events == s.events + seq(n, _ => AgentEnd)
    ensures forall i :: |s.errors| <= i < |CancelTimes(s, n).errors| ==> CancelTimes(s, n).errors[i] == "Request cancelled."
    ensures s.errors <= CancelTimes(s, n).errors
  {
    if n > 0 {
      CancelTimesLog(s, n - 1);
    }
  }

  function NamesLogged(xs: seq<Expected>): (events: seq<Event>)
    ensures |events| == |xs|
  {
    seq(|xs|, i requires 0 <= i < |xs| => Asserted(if xs[i].TextContains? then "assistant_text_contains" else xs[i].name))
  }

  predicate SomeFails(s: State, xs: seq<Expected>) {
    exists i :: 0 <= i < |xs| && Expectation(s, xs[i]) != []
  }

  lemma OneNameMore(xs: seq<Expected>)
    requires xs != []
    ensures NamesLogged(xs) == NamesLogged(xs[..|xs| - 1]) + [Asserted(NameOf(xs[|xs| - 1]))]
  {
  }

  lemma OneMoreFails(s: State, xs: seq<Expected>)
    requires xs != []
    ensures SomeFails(s, xs) <==> SomeFails(s, xs[..|xs| - 1]) || Expectation(s, xs[|xs| - 1]) != []
  {
    hide Expectation;
    var n := |xs| - 1;
    if i :| 0 <= i < n && Expectation(s, xs[..n][i]) != [] {
      assert Expectation(s, xs[i]) != [];
    }
    if i :| 0 <= i < |xs| && Expectation(s, xs[i]) != [] {
      assert i < n ==> xs[..n][i] == xs[i];
    }
  }

  lemma {:induction false} ExpectLog(s: State, xs: seq<Expected>)
    ensures Expect(s, xs).0.events == s.events + NamesLogged(xs)
    ensures Expect(s, xs).1 != [] <==> SomeFails(s, xs)
  {
    hide Expectation, SomeFails, NamesLogged, NameOf;
    if xs == [] {
      NothingExpected(s);
    } else {
      var n := |xs| - 1;
      ExpectLog(s, xs[..n]);
      ExpectFrame(s, xs[..n]);
      ExpectationFrame(s, Expect(s, xs[..n]).0, xs[n]);
      OneNameMore(xs);
      OneMoreFails(s, xs);
    }
  }

  lemma NothingExpected(s: State)
    ensures NamesLogged([]) == [] && !SomeFails(s, [])
  {
  }

  lemma ExpectationFrame(s: State, t: State, x: Expected)
    requires t == s.(events := t.events)
    ensures Expectation(t, x) == Expectation(s, x)
  {
  }

  lemma PromptLog(s: State, prompt: string, step: Step)
    requires s.activeRun.None? && step.prompt == Some(prompt)
    ensures Prompt(s, prompt, step).0.events == s.events + Trace(s, step) && Prompt(s, prompt, step).1 == []
  {
  }

  lemma AbortLog(s: State, step: Step)
    requires step.abort && step.prompt.None? && step.steer.None? && step.follow.None?
    ensures AbortRun(s).0.events == s.events + Trace(s, step)
    ensures AbortRun(s).1 == if s.activeRun.None? then [NeedsRun("abort", "")] else []
  {
    hide CancelTimes;
    if s.activeRun.Some? {
      var a := Emit(s.(interruptions := s.interruptions + 1), AbortControl(s.activeRun.value.prompt));
      CancelTimesLog(a, CANCEL_REPEATS);
      CancelKeepsRun(a, CANCEL_REPEATS);
    }
  }

  /** Every step, of whatever kind and in whatever state: it logs itself and then exactly its trace, and
      it fails exactly as stated. */
  lemma StepTraces(s: State, step: Step, index: nat)
    ensures RunStep(s, step, index).0.events == s.events + [StepTaken(index)] + Trace(s, step)
    ensures RunStep(s, step, index).1 != [] <==> Fails(s, step)
    ensures Fails(s, step) && !Expects(step) ==> RunStep(s, step, index).1 == [Complaint(s, step)]
  {
    hide CancelTimes, AbortRun, Prompt, Expect, Expectation, Observed, Logged;
    var t := Emit(s, StepTaken(index));
    assert Trace(t, step) == Trace(s, step) by {
      LoggedLater(s, index, step);
    }
    if step.prompt.Some? {
      PromptTraces(t, step.prompt.value, step);
    } else if step.steer.None? && step.follow.None? && step.abort {
      AbortLog(t, step);
    } else if step.waitFor.Some? {
      ObservedIsLogged(s.events, index, step.waitFor.value);
    } else if step.expectation.Some? && step.expectation.value.Some? {
      ExpectLog(t, step.expectation.value.value);
      SameFailures(s, t, step.expectation.value.value);
    }
  }

  lemma SameFailures(s: State, t: State, xs: seq<Expected>)
    requires t == s.(events := t.events)
    ensures SomeFails(t, xs) <==> SomeFails(s, xs)
  {
    hide Expectation;
    forall x ensures Expectation(t, x) == Expectation(s, x) {
      ExpectationFrame(s, t, x);
    }
  }

  lemma LoggedLater(s: State, index: nat, step: Step)
    ensures Trace(Emit(s, StepTaken(index)), step) == Trace(s, step)
  {
    if step.waitFor.Some? {
      ObservedIsLogged(s.events, index, step.waitFor.value);
      ObservedIsLogged(s.events + [StepTaken(index)], index, step.waitFor.value);
      var twice := s.events + [StepTaken(index)] + [StepTaken(index)];
      if i :| 0 <= i < |twice| && TypeOf(twice[i]) == Some(step.waitFor.value) {
        assert (s.events + [StepTaken(index)])[i] == twice[i];
      }
      if i :| 0 <= i < |s.events| + 1 && TypeOf((s.events + [StepTaken(index)])[i]) == Some(step.waitFor.value) {
        assert twice[i] == (s.events + [StepTaken(index)])[i];
      }
    }
  }

  lemma PromptTraces(s: State, prompt: string, step: Step)
    requires step.prompt == Some(prompt)
    ensures Prompt(s, prompt, step).0.events == s.events + Trace(s, step)
    ensures Prompt(s, prompt, step).1 == if s.activeRun.Some? then [Busy(s.activeRun.value.prompt)] else []
  {
    if s.activeRun.None? {
      PromptLog(s, prompt, step);
    }
  }

  /** In every run the lists hold exactly the texts logged. */
  lemma {:induction false} ListsAreLogged(simulateBug: bool, steps: seq<Step>, keepGoing: bool)
    ensures ListsMatch(RunSteps(Fresh(simulateBug), steps, keepGoing).0)
  {
    hide ListsMatch, RunStep;
    if steps == [] {
      FreshLists(simulateBug);
    } else {
      ListsAreLogged(simulateBug, steps[..|steps| - 1], keepGoing);
      StepKeepsLists(RunSteps(Fresh(simulateBug), steps[..|steps| - 1], keepGoing).0, steps[|steps| - 1], |steps|);
    }
  }

  lemma FreshLists(simulateBug: bool)
    ensures ListsMatch(Fresh(simulateBug))
  {
  }

  lemma QuietLists(s: State, e: Event)
    requires ListsMatch(s) && (e.StepTaken? || e.Asserted? || e.ToolStart? || e.ToolEnd? || e.StreamStart? || e.AgentEnd? || e.AbortControl?)
    ensures ListsMatch(Emit(s, e))
  {
    hide Texts;
    TextsEmitted(s, e);
  }

  lemma CompleteLists(s: State, text: string)
    requires ListsMatch(s)
    ensures ListsMatch(Complete(s, text).0)
  {
    hide Texts;
    if s.activeRun.Some? {
      TextsEmitted(s, ToolEnd(false));
      TextsEmitted(EndTool(s, false), MessageEnd(text));
    }
  }

  lemma StartModelLists(s: State, prompt: string, step: Step)
    requires ListsMatch(s)
    ensures ListsMatch(StartModel(s, prompt, step))
  {
    hide Texts;
    TextsEmitted(s, MessageStart(prompt));
  }

  lemma StartToolLists(s: State)
    requires ListsMatch(s) && s.activeRun.Some?
    ensures ListsMatch(StartTool(s)) && ListsMatch(StartStream(s))
  {
    hide Texts;
    TextsEmitted(s, ToolStart);
    TextsEmitted(s, StreamStart);
  }

  lemma PromptLists(s: State, prompt: string, step: Step)
    requires ListsMatch(s)
    ensures ListsMatch(Prompt(s, prompt, step).0)
  {
    hide ListsMatch, Complete;
    if s.activeRun.None? {
      var m := StartModel(s, prompt, step);
      StartModelLists(s, prompt, step);
      StartToolLists(m);
      StartToolLists(StartTool(m));
      CompleteLists(StartStream(StartTool(m)), "ok: " + prompt);
    }
  }

  lemma ControlLists(s: State, text: string)
    requires ListsMatch(s)
    ensures ListsMatch(SteerRun(s, text).0) && ListsMatch(FollowRun(s, text).0)
  {
    hide Texts;
    TextsEmitted(s, SteerControl(text));
    TextsEmitted(s, FollowControl(text));
  }

  lemma {:induction false} CancelLists(s: State, n: nat)
    requires ListsMatch(s)
    ensures ListsMatch(CancelTimes(s, n))
  {
    hide Texts;
    if n > 0 {
      CancelLists(s, n - 1);
      TextsEmitted(CancelTimes(s, n - 1), AgentEnd);
    }
  }

  lemma AbortLists(s: State)
    requires ListsMatch(s)
    ensures ListsMatch(AbortRun(s).0)
  {
    hide Texts, CancelTimes, EndTool;
    if s.activeRun.Some? {
      var a := Emit(s.(interruptions := s.interruptions + 1), AbortControl(s.activeRun.value.prompt));
      TextsEmitted(s, AbortControl(s.activeRun.value.prompt));
      CancelLists(a, CANCEL_REPEATS);
      CancelKeepsRun(a, CANCEL_REPEATS);
      EndToolLists(CancelTimes(a, CANCEL_REPEATS));
    }
  }

  lemma EndToolLists(s: State)
    requires ListsMatch(s) && s.activeRun.Some?
    ensures ListsMatch(EndTool(s, true))
  {
    hide Texts;
    TextsEmitted(s, ToolEnd(true));
  }

  lemma {:induction false} ExpectLists(s: State, xs: seq<Expected>)
    requires ListsMatch(s)
    ensures ListsMatch(Expect(s, xs).0)
  {
    hide ListsMatch;
    if xs != [] {
      ExpectLists(s, xs[..|xs| - 1]);
      QuietLists(Expect(s, xs[..|xs| - 1]).0, Asserted(NameOf(xs[|xs| - 1])));
    }
  }

  lemma StepKeepsLists(s0: State, step: Step, index: nat)
    requires ListsMatch(s0)
    ensures ListsMatch(RunStep(s0, step, index).0)
  {
    hide ListsMatch, Prompt, SteerRun, FollowRun, AbortRun, Complete, Expect, Observed;
    var s := Emit(s0, StepTaken(index));
    QuietLists(s0, StepTaken(index));
    if step.prompt.Some? {
      PromptLists(s, step.prompt.value, step);
    } else if step.steer.Some? {
      ControlLists(s, step.steer.value);
    } else if step.follow.Some? {
      ControlLists(s, step.follow.value);
    } else if step.abort {
      AbortLists(s);
    } else if step.complete.Some? {
      CompleteLists(s, step.complete.value);
    } else if step.waitFor.Some? {
      QuietLists(s, Asserted("wait_for"));
    } else if step.expectation.Some? && step.expectation.value.Some? {
      ExpectLists(s, step.expectation.value.value);
    }
  }

  /** What each counter's name counts, in every run: the logged events of its kind. An expectation of a
      counter holds exactly when it names that number. */
  lemma CountersByName(simulateBug: bool, steps: seq<Step>, keepGoing: bool, name: string, value: int)
    ensures var s := RunSteps(Fresh(simulateBug), steps, keepGoing).0;
            Expectation(s, Counter(name, value)) == [] <==>
            || (name == "model_call_count" && value == Count(s.events, PromptKind))
            || (name == "interruption_count" && value == Count(s.events, AbortKind))
            || (name == "tool_start_count" && value == Count(s.events, ToolStartKind))
            || (name == "tool_end_count" && value == Count(s.events, ToolEndKind))
            || (name == "provider_stream_start_count" && value == Count(s.events, StreamKind))
            || (name == "request_cancelled_count" && value == Count(s.events, CancelKind))
            || (name == "steer_count" && value == Count(s.events, SteerKind))
            || (name == "follow_count" && value == Count(s.events, FollowKind))
            || (name == "simulate_bug" && value == if simulateBug then 1 else 0)
  {
    hide RunSteps, Count, Read, Balanced;
    StepsGood(simulateBug, steps, keepGoing);
    ModeStays(simulateBug, steps, keepGoing);
  }

  lemma {:induction false} JoinedHolds(texts: seq<string>, i: nat)
    requires i < |texts|
    ensures Within(texts[i], AssistantText(texts))
  {
    var n := |texts| - 1;
    if n == 0 {
      assert AssistantText(texts) == "" + texts[i] + "";
    } else if i == n {
      assert AssistantText(texts) == (AssistantText(texts[..n]) + "\n") + texts[i] + "";
    } else {
      JoinedHolds(texts[..n], i);
      var before, after :| AssistantText(texts[..n]) == before + texts[..n][i] + after;
      assert AssistantText(texts) == before + texts[i] + (after + "\n" + texts[n]);
    }
  }

  /** `part in text`: some text before it, and some behind. */
  ghost predicate Within(part: string, text: string) {
    exists before, after :: text == before + part + after
  }

  lemma ContainsIff(text: string, part: string)
    ensures Contains(text, part) <==> Within(part, text)
  {
    if i :| 0 <= i <= |text| && part <= text[i..] {
      assert text == text[..i] + part + text[i + |part|..];
    }
    if before, after :| text == before + part + after {
      assert part <= text[|before|..];
    }
  }

  /** An expected text is found exactly when it is part of the assistant's texts, joined by line ends;
      so every text the assistant ended with is found, and before the first nothing but the empty one. */
  lemma TextsAreFound(s: State, part: string)
    ensures Expectation(s, TextContains(part)) == [] <==> Within(part, AssistantText(s.assistantTexts))
    ensures part in s.assistantTexts ==> Expectation(s, TextContains(part)) == []
    ensures s.assistantTexts == [] ==> (Expectation(s, TextContains(part)) == [] <==> part == "")
  {
    hide Contains, Within, AssistantText;
    ContainsIff(AssistantText(s.assistantTexts), part);
    if part in s.assistantTexts {
      var i :| 0 <= i < |s.assistantTexts| && s.assistantTexts[i] == part;
      JoinedHolds(s.assistantTexts, i);
    }
    if s.assistantTexts == [] {
      NoText(part);
    }
  }

  lemma NoText(part: string)
    ensures Within(part, AssistantText([])) <==> part == ""
  {
    assert AssistantText([]) == "";
    assert "" == "" + "" + "";
  }
}
