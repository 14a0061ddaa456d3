/**
 The fake streaming run of examples/tui/29_composer_bottom_frame.py. `Demo` is the state of
 the application as a value with one function per method; `ComposerDemo` is the application,
 which updates its lists in place. A run is a coroutine: `Advance` is what it does between
 two awaits, so user actions can fall between any two calls.
 */
module Composer {
  import opened Options

  datatype Visibility = Visible | Collapsed | Hidden

  datatype Record =
    | UserPrompt(text: string)
    | Thinking(text: string, visibility: Visibility)
    | ToolExecution(name: string, running: bool, elapsed: real, output: string)
    | AssistantMessage(text: string, stable: bool)
    | WorkedDivider(elapsed: real)

  datatype Display = Idle | Running | Cancelled

  datatype Demo = Demo(
    records: seq<Record>,
    followups: seq<string>,
    steers: seq<string>,
    interrupted: bool,          // interruption_message is set
    draft: Option<string>,      // text of the unstable assistant draft
    display: Display,
    startedAt: Option<real>,
    planned: real,
    toolIndex: Option<nat>)

  const STREAM_CHUNK_SIZE: nat := 42

  // ------------------------------------------------------------ pure helpers

  /** `_chunks`: consecutive pieces of `size` characters, the last one possibly shorter. */
  function Chunks(text: string, size: nat): (chunks: seq<string>)
    requires size > 0
    ensures forall i :: 0 <= i < |chunks| ==> 0 < |chunks[i]| <= size
    ensures chunks == [] <==> text == []
  {
    if text == [] then []
    else if |text| <= size then [text]
    else [text[..size]] + Chunks(text[size..], size)
  }

  function Concat(chunks: seq<string>): string {
    if chunks == [] then "" else Concat(chunks[..|chunks| - 1]) + chunks[|chunks| - 1]
  }

  lemma {:induction false} ConcatFront(first: string, rest: seq<string>)
    ensures Concat([first] + rest) == first + Concat(rest)
  {
    var all := [first] + rest;
    if rest == [] {
      assert all[..0] == [];
    } else {
      assert all[..|all| - 1] == [first] + rest[..|rest| - 1];
      ConcatFront(first, rest[..|rest| - 1]);
    }
  }

  /** Cutting a text into chunks loses nothing and reorders nothing. */
  lemma {:induction false} ConcatChunks(text: string, size: nat)
    requires size > 0
    ensures Concat(Chunks(text, size)) == text
  {
    if |text| > size {
      ConcatChunks(text[size..], size);
      ConcatFront(text[..size], Chunks(text[size..], size));
    } else if text != [] {
      ConcatFront(text, []);
    }
  }

  /** All chunks but the last are full, so there are as many as it takes: the least number of pieces
      of `size` that reach the length. */
  lemma {:induction false} ChunksAreFull(text: string, size: nat)
    requires size > 0
    ensures forall i :: 0 <= i < |Chunks(text, size)| - 1 ==> |Chunks(text, size)[i]| == size
    ensures |text| <= |Chunks(text, size)| * size < |text| + size
  {
    if |text| > size {
      ChunksAreFull(text[size..], size);
      var n := |Chunks(text[size..], size)|;
      assert (n + 1) * size == n * size + size;
    }
  }

  lemma {:induction false} ConcatPrefix(chunks: seq<string>, k: nat)
    requires k <= |chunks|
    ensures Concat(chunks[..k]) <= Concat(chunks)
  {
    if k == |chunks| {
      assert chunks[..k] == chunks;
    } else {
      var shorter := chunks[..|chunks| - 1];
      ConcatPrefix(shorter, k);
      assert shorter[..k] == chunks[..k];
    }
  }

  /** `_chunk_delay` over the reals. */
  function ChunkDelay(duration: real, count: nat): real {
    if duration <= 0.0 || count == 0 then 0.0 else duration / (count + 1) as real
  }

  function Sum(delays: seq<real>): real {
    if delays == [] then 0.0 else Sum(delays[..|delays| - 1]) + delays[|delays| - 1]
  }

  lemma {:induction false} SumConstant(delays: seq<real>, delay: real)
    requires forall i :: 0 <= i < |delays| ==> delays[i] == delay
    ensures Sum(delays) == |delays| as real * delay
  {
    if delays != [] {
      SumConstant(delays[..|delays| - 1], delay);
    }
  }

  function SteerRecord(text: string): Record {
    Thinking("Steer applied: " + text, Visible)
  }

  function SteerRecords(steers: seq<string>): (r: seq<Record>)
    ensures |r| == |steers|
  {
    seq(|steers|, i requires 0 <= i < |steers| => SteerRecord(steers[i]))
  }

  lemma SteerRecordsAppend(a: seq<string>, b: seq<string>)
    ensures SteerRecords(a + b) == SteerRecords(a) + SteerRecords(b)
  {
  }

  function ToolRecord(running: bool, elapsed: real): Record {
    ToolExecution("fake_model_stream", running, elapsed, "markdown chunks")
  }

  function Elapsed(d: Demo, now: real): real {
    if d.startedAt.None? || now < d.startedAt.value then 0.0 else now - d.startedAt.value
  }

  // ----------------------------------------------------------------- methods

  predicate ToolInRange(d: Demo) {
    d.toolIndex.Some? ==> d.toolIndex.value < |d.records|
  }

  function StartPrompt(d: Demo, text: string, duration: real, now: real): Demo {
    d.(records := d.records + [UserPrompt(text), ToolRecord(true, 0.0)],
       display := Running, startedAt := Some(now), planned := duration,
       draft := None, interrupted := false, toolIndex := Some(|d.records| + 1))
  }

  function CompleteTool(d: Demo, now: real): Demo
    requires ToolInRange(d)
  {
    if d.toolIndex.None? then d
    else d.(records := d.records[d.toolIndex.value := ToolRecord(false, Elapsed(d, now))])
  }

  function ConsumeSteers(d: Demo): Demo {
    d.(records := d.records + SteerRecords(d.steers), steers := [])
  }

  function AppendChunk(d: Demo, chunk: string): Demo {
    d.(draft := Some(if d.draft.None? then chunk else d.draft.value + chunk))
  }

  function CommitAssistant(d: Demo): Demo {
    if d.draft.None? then d
    else d.(records := d.records + [AssistantMessage(d.draft.value, true)], draft := None)
  }

  function Abort(d: Demo, now: real): Demo {
    var c := CommitAssistant(d);
    c.(records := c.records + [WorkedDivider(Elapsed(d, now))],
       interrupted := true, display := Cancelled, startedAt := None, planned := 0.0, toolIndex := None)
  }

  function Finish(d: Demo, now: real): Demo {
    var c := CommitAssistant(ConsumeSteers(d));
    c.(records := c.records + [WorkedDivider(Elapsed(d, now))],
       display := Idle, startedAt := None, planned := 0.0, toolIndex := None)
  }

  // ------------------------------------------------------------ the coroutine

  /** Where the coroutine is suspended: before its first step, in the sleep before the tool
      completes, in the sleep after `sent` chunks, or nowhere any more. */
  datatype Stage = Created | ToolSleep | ChunkSleep(sent: nat) | Done | Aborted

  /** `before` and `applied` are notes for the specification: the records the run started
      from and the steers it has applied; `slept` lists its sleeps so far, `startedAt` and `toolAt`
      are when it was started and when its tool was completed. */
  datatype Task = Task(
    prompt: string, response: string, duration: real, stage: Stage,
    before: seq<Record>, applied: seq<string>, slept: seq<real>, toolElapsed: real,
    startedAt: real, toolAt: real)

  function TaskChunks(t: Task): seq<string> {
    Chunks(t.response, STREAM_CHUNK_SIZE)
  }

  function TaskDelay(t: Task): real {
    ChunkDelay(t.duration, |TaskChunks(t)|)
  }

  predicate Suspended(t: Task) {
    t.stage.Created? || t.stage.ToolSleep? || t.stage.ChunkSleep?
  }

  /** The loop body for chunk `k`, or what follows the loop. */
  function ChunkOrFinish(d: Demo, t: Task, k: nat, now: real): (Demo, Task) {
    var u := t.(applied := t.applied + d.steers);
    if k < |TaskChunks(t)| then
      (AppendChunk(ConsumeSteers(d), TaskChunks(t)[k]),
       u.(stage := ChunkSleep(k + 1), slept := t.slept + [TaskDelay(t)]))
    else (Finish(d, now), u.(stage := Done))
  }

  /** Resuming the coroutine. A cancelled one only ends; a finished one is not resumed. */
  function Advance(d: Demo, t: Task, now: real): (Demo, Task)
    requires ToolInRange(d)
  {
    match t.stage
    case Created => (d, t.(stage := ToolSleep, slept := t.slept + [TaskDelay(t)]))
    case ToolSleep => ChunkOrFinish(CompleteTool(d, now), t.(toolElapsed := Elapsed(d, now), toolAt := now), 0, now)
    case ChunkSleep(k) => ChunkOrFinish(d, t, k, now)
    case _ => (d, t)
  }

  class ComposerDemo {
    var records: seq<Record>
    var pendingFollowups: seq<string>
    var pendingSteers: seq<string>
    var interrupted: bool
    var assistantDraft: Option<string>
    var display: Display
    var startedAt: Option<real>
    var plannedDuration: real
    var activeToolIndex: Option<nat>

    function State(): Demo
      reads this
    {
      Demo(records, pendingFollowups, pendingSteers, interrupted, assistantDraft, display,
           startedAt, plannedDuration, activeToolIndex)
    }

    constructor (seed: seq<Record>)
      ensures State() == Demo(seed, [], [], false, None, Idle, None, 0.0, None)
    {
      records, pendingFollowups, pendingSteers := seed, [], [];
      interrupted, assistantDraft, display := false, None, Idle;
      startedAt, plannedDuration, activeToolIndex := None, 0.0, None;
    }

    /** Every call site starts a prompt only when no run is active. */
    method Start(text: string, response: string, duration: real, now: real) returns (task: Task)
      requires display != Running
      modifies this
      ensures State() == StartPrompt(old(State()), text, duration, now)
      ensures task == NewTask(old(records), text, response, duration, now)
    {
      task := NewTask(records, text, response, duration, now);
      records := records + [UserPrompt(text)];
      display := Running;
      startedAt := Some(now);
      plannedDuration := duration;
      assistantDraft := None;
      interrupted := false;
      activeToolIndex := Some(|records|);
      records := records + [ToolRecord(true, 0.0)];
    }

    method QueueFollowup(text: string)
      modifies this
      ensures State() == old(State()).(followups := old(pendingFollowups) + [text])
    {
      pendingFollowups := pendingFollowups + [text];
    }

    method QueueSteer(text: string)
      modifies this
      ensures State() == old(State()).(steers := old(pendingSteers) + [text])
    {
      pendingSteers := pendingSteers + [text];
    }

    method PopLastQueued() returns (text: Option<string>)
      modifies this
      ensures if old(pendingFollowups) == [] then text == None && State() == old(State())
              else State() == old(State()).(followups := pendingFollowups)
                   && text.Some? && old(pendingFollowups) == pendingFollowups + [text.value]
    {
      if pendingFollowups == [] {
        return None;
      }
      text := Some(pendingFollowups[|pendingFollowups| - 1]);
      pendingFollowups := pendingFollowups[..|pendingFollowups| - 1];
    }

    method StartNextFollowup(response: string -> string, duration: real, now: real) returns (task: Option<Task>)
      modifies this
      ensures if old(display) != Idle || old(pendingFollowups) == [] then task == None && State() == old(State())
              else var text := old(pendingFollowups)[0];
                   && State() == StartPrompt(old(State()).(followups := old(pendingFollowups)[1..]), text, duration, now)
                   && task == Some(NewTask(old(records), text, response(text), duration, now))
    {
      if display != Idle || pendingFollowups == [] {
        return None;
      }
      var text := pendingFollowups[0];
      pendingFollowups := pendingFollowups[1..];
      var started := Start(text, response(text), duration, now);
      task := Some(started);
    }

    method AbortRun(now: real)
      modifies this
      ensures State() == Abort(old(State()), now)
    {
      var elapsed := Elapsed(State(), now);
      if assistantDraft.Some? {
        records := records + [AssistantMessage(assistantDraft.value, true)];
        assistantDraft := None;
      }
      records := records + [WorkedDivider(elapsed)];
      interrupted := true;
      display := Cancelled;
      startedAt := None;
      plannedDuration := 0.0;
      activeToolIndex := None;
    }

    method ApplySteers()
      modifies this
      ensures State() == ConsumeSteers(old(State()))
    {
      var steers := pendingSteers;
      pendingSteers := [];
      ghost var was := records;
      for i := 0 to |steers|
        invariant records == was + SteerRecords(steers[..i])
        invariant State() == old(State()).(records := records, steers := [])
      {
        SteerRecordsAppend(steers[..i], [steers[i]]);
        assert steers[..i + 1] == steers[..i] + [steers[i]];
        records := records + [SteerRecord(steers[i])];
      }
      assert steers[..|steers|] == steers;
    }

    /** One resumption of the coroutine, up to its next sleep. */
    method Resume(t: Task, now: real) returns (u: Task)
      requires ToolInRange(State())
      modifies this
      ensures (State(), u) == Advance(old(State()), t, now)
    {
      u := t;
      if t.stage.Created? {
        u := t.(stage := ToolSleep, slept := t.slept + [TaskDelay(t)]);
        return;
      }
      if !t.stage.ToolSleep? && !t.stage.ChunkSleep? {
        return;
      }
      var k := 0;
      if t.stage.ToolSleep? {
        u := u.(toolElapsed := Elapsed(State(), now), toolAt := now);
        if activeToolIndex.Some? {
          records := records[activeToolIndex.value := ToolRecord(false, Elapsed(State(), now))];
        }
      } else {
        k := t.stage.sent;
      }
      var elapsed := Elapsed(State(), now);
      u := u.(applied := u.applied + pendingSteers);
      ApplySteers();
      if k < |TaskChunks(t)| {
        var chunk := TaskChunks(t)[k];
        assistantDraft := Some(if assistantDraft.None? then chunk else assistantDraft.value + chunk);
        u := u.(stage := ChunkSleep(k + 1), slept := u.slept + [TaskDelay(t)]);
        return;
      }
      if assistantDraft.Some? {
        records := records + [AssistantMessage(assistantDraft.value, true)];
        assistantDraft := None;
      }
      records := records + [WorkedDivider(elapsed)];
      display := Idle;
      startedAt := None;
      plannedDuration := 0.0;
      activeToolIndex := None;
      u := u.(stage := Done);
    }
  }

  function NewTask(before: seq<Record>, prompt: string, response: string, duration: real, now: real): Task {
    Task(prompt, response, duration, Created, before, [], [], 0.0, now, now)
  }
}
