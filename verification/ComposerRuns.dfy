/**
 Every interleaving of the streaming coroutines with queueing, steering, popping, aborting
 and starting. The notes a world keeps beside the application (`blocks`, `queuedSteers`,
 `queued`, `started`) are written from the actions alone.
 */
module ComposerRuns {
  import opened Options
  import opened Composer

  /** A run that is over: its coroutine as it was when it ended, what was committed, and when. */
  datatype Block = Block(task: Task, completed: bool, committed: Option<string>, elapsed: real, endedAt: real)

  datatype World = World(
    demo: Demo,
    tasks: seq<Task>,
    active: Option<nat>,
    seed: seq<Record>,
    blocks: seq<Block>,
    queuedSteers: seq<string>,   // every steer ever queued
    queued: seq<string>,         // every follow-up ever queued, less those taken back
    started: seq<string>)        // every follow-up ever started

  datatype Action =
    | Submit(text: string, response: string, duration: real, now: real)
    | Followup(text: string)
    | Steer(text: string)
    | EditLast
    | Cancel(now: real)
    | Drain(response: string, duration: real, now: real)
    | Resume(task: nat, now: real)

  // ---------------------------------------------------- the records of a run

  function ToolOf(t: Task): Record {
    if t.stage.ChunkSleep? || t.stage.Done? then ToolRecord(false, t.toolElapsed) else ToolRecord(true, 0.0)
  }

  function DraftOf(t: Task): Option<string> {
    if t.stage.ChunkSleep? && t.stage.sent <= |TaskChunks(t)| then Some(Concat(TaskChunks(t)[..t.stage.sent])) else None
  }

  /** What a run has put in the transcript so far. */
  function RunRecords(t: Task): seq<Record> {
    [UserPrompt(t.prompt), ToolOf(t)] + SteerRecords(t.applied)
  }

  function BlockRecords(b: Block): seq<Record> {
    RunRecords(b.task)
    + (if b.committed.Some? then [AssistantMessage(b.committed.value, true)] else [])
    + [WorkedDivider(b.elapsed)]
  }

  function Transcript(blocks: seq<Block>): seq<Record> {
    if blocks == [] then [] else Transcript(blocks[..|blocks| - 1]) + BlockRecords(blocks[|blocks| - 1])
  }

  function Applied(blocks: seq<Block>): seq<string> {
    if blocks == [] then [] else Applied(blocks[..|blocks| - 1]) + blocks[|blocks| - 1].task.applied
  }

  // ------------------------------------------------------------------- steps

  function Launch(w: World, demo: Demo, text: string, response: string, duration: real, now: real): World {
    w.(demo := StartPrompt(demo, text, duration, now),
       tasks := w.tasks + [NewTask(demo.records, text, response, duration, now)],
       active := Some(|w.tasks|))
  }

  function OnCancel(w: World, a: nat, now: real): World
    requires a < |w.tasks|
  {
    w.(demo := Abort(w.demo, now),
       tasks := if Suspended(w.tasks[a]) then w.tasks[a := w.tasks[a].(stage := Aborted)] else w.tasks,
       active := None,
       blocks := w.blocks + [Block(w.tasks[a], false, w.demo.draft, Elapsed(w.demo, now), now)])
  }

  function OnResume(w: World, i: nat, now: real): World
    requires i < |w.tasks| && ToolInRange(w.demo)
  {
    var (demo, task) := Advance(w.demo, w.tasks[i], now);
    w.(demo := demo, tasks := w.tasks[i := task],
       blocks := if Suspended(w.tasks[i]) && task.stage.Done?
                 then w.blocks + [Block(task, true, if task.response == "" then None else Some(task.response),
                                        Elapsed(w.demo, now), now)]
                 else w.blocks)
  }

  function Next(w: World, action: Action): World {
    match action
    case Submit(text, response, duration, now) =>
      if w.demo.display.Running? then w else Launch(w, w.demo, text, response, duration, now)
    case Followup(text) =>
      w.(demo := w.demo.(followups := w.demo.followups + [text]), queued := w.queued + [text])
    case Steer(text) =>
      w.(demo := w.demo.(steers := w.demo.steers + [text]), queuedSteers := w.queuedSteers + [text])
    case EditLast =>
      if w.demo.followups == [] || w.queued == [] then w
      else w.(demo := w.demo.(followups := w.demo.followups[..|w.demo.followups| - 1]),
              queued := w.queued[..|w.queued| - 1])
    case Cancel(now) =>
      if !w.demo.display.Running? || w.active.None? || w.active.value >= |w.tasks| then w
      else OnCancel(w, w.active.value, now)
    case Drain(response, duration, now) =>
      if w.active.None? || w.active.value >= |w.tasks| || !w.tasks[w.active.value].stage.Done? then w
      else if !w.demo.display.Idle? || w.demo.followups == [] then w.(active := None)
      else
        var text := w.demo.followups[0];
        Launch(w.(started := w.started + [text]), w.demo.(followups := w.demo.followups[1..]), text, response, duration, now)
    case Resume(i, now) =>
      if i >= |w.tasks| || !ToolInRange(w.demo) then w else OnResume(w, i, now)
  }

  function Begin(seed: seq<Record>): World {
    World(Demo(seed, [], [], false, None, Idle, None, 0.0, None), [], None, seed, [], [], [], [])
  }

  function Run(seed: seq<Record>, actions: seq<Action>): World {
    if actions == [] then Begin(seed) else Next(Run(seed, actions[..|actions| - 1]), actions[|actions| - 1])
  }

  // -------------------------------------------------------------- invariants

  /** How long a coroutine has slept, counted in equal sleeps. */
  predicate SleepsFit(t: Task) {
    && (forall i :: 0 <= i < |t.slept| ==> t.slept[i] == TaskDelay(t))
    && match t.stage
       case Created => |t.slept| == 0
       case ToolSleep => |t.slept| == 1
       case ChunkSleep(k) => 1 <= k <= |TaskChunks(t)| && |t.slept| == k + 1
       case Done => |t.slept| == |TaskChunks(t)| + 1
       case Aborted => |t.slept| <= |TaskChunks(t)| + 1
  }

  predicate BlockFits(b: Block) {
    && SleepsFit(b.task)
    && if b.completed
       then b.task.stage.Done? && b.committed == if b.task.response == "" then None else Some(b.task.response)
       else Suspended(b.task) && b.committed == DraftOf(b.task)
  }

  /** The application between two awaits, while a run is on. */
  predicate RunFits(d: Demo, t: Task, base: seq<Record>) {
    && Suspended(t)
    && t.before == base
    && d.records == base + RunRecords(t)
    && d.toolIndex == Some(|base| + 1)
    && d.draft == DraftOf(t)
  }

  predicate RestFits(d: Demo, base: seq<Record>) {
    d.records == base && d.toolIndex.None? && d.draft.None?
  }

  /** The steers the run that is on has applied. */
  function Current(w: World): seq<string> {
    if w.demo.display.Running? && w.active.Some? && w.active.value < |w.tasks| then w.tasks[w.active.value].applied else []
  }

  predicate Transcribed(w: World) {
    if w.demo.display.Running?
    then w.active.Some? && w.active.value < |w.tasks| && RunFits(w.demo, w.tasks[w.active.value], w.seed + Transcript(w.blocks))
    else RestFits(w.demo, w.seed + Transcript(w.blocks))
  }

  predicate Tasks(w: World) {
    forall i :: 0 <= i < |w.tasks| ==>
                  && SleepsFit(w.tasks[i])
                  && (Suspended(w.tasks[i]) ==> w.demo.display.Running? && w.active == Some(i))
  }

  predicate Conserved(w: World) {
    && w.queuedSteers == Applied(w.blocks) + Current(w) + w.demo.steers
    && w.queued == w.started + w.demo.followups
  }

  predicate Inv(w: World) {
    && Transcribed(w)
    && Tasks(w)
    && Conserved(w)
    && forall b :: b in w.blocks ==> BlockFits(b)
  }

  // ------------------------------------------------------------- one coroutine step

  lemma AppendedBlock(blocks: seq<Block>, b: Block)
    ensures Transcript(blocks + [b]) == Transcript(blocks) + BlockRecords(b)
    ensures Applied(blocks + [b]) == Applied(blocks) + b.task.applied
  {
    assert (blocks + [b])[..|blocks|] == blocks;
  }

  lemma DraftGrows(t: Task, k: nat)
    requires k < |TaskChunks(t)|
    ensures Concat(TaskChunks(t)[..k]) + TaskChunks(t)[k] == Concat(TaskChunks(t)[..k + 1])
  {
    assert TaskChunks(t)[..k + 1][..k] == TaskChunks(t)[..k];
  }

  lemma DraftComplete(t: Task)
    ensures Concat(TaskChunks(t)[..|TaskChunks(t)|]) == t.response
  {
    ConcatChunks(t.response, STREAM_CHUNK_SIZE);
    assert TaskChunks(t)[..|TaskChunks(t)|] == TaskChunks(t);
  }

  /** Between two awaits after the tool has completed and `k` chunks have been sent. */
  predicate AtChunk(d: Demo, t: Task, k: nat, base: seq<Record>) {
    && t.before == base
    && d.records == base + [UserPrompt(t.prompt), ToolRecord(false, t.toolElapsed)] + SteerRecords(t.applied)
    && d.toolIndex == Some(|base| + 1)
    && k <= |TaskChunks(t)|
    && d.draft == if k == 0 then None else Some(Concat(TaskChunks(t)[..k]))
  }

  lemma SteersJoin(base: seq<Record>, head: seq<Record>, a: seq<string>, b: seq<string>)
    ensures base + head + SteerRecords(a) + SteerRecords(b) == base + (head + SteerRecords(a + b))
  {
  }

  /** The stretch that sends chunk `k`. */
  lemma ChunkFits(d: Demo, t: Task, k: nat, now: real, base: seq<Record>)
    requires AtChunk(d, t, k, base) && k < |TaskChunks(t)|
    ensures var (e, u) := ChunkOrFinish(d, t, k, now);
            RunFits(e, u, base) && e.display == d.display
  {
    hide Chunks, SteerRecords;
    SteersJoin(base, [UserPrompt(t.prompt), ToolRecord(false, t.toolElapsed)], t.applied, d.steers);
    DraftGrows(t, k);
    if k == 0 {
      assert Concat(TaskChunks(t)[..0]) == "";
      assert "" + TaskChunks(t)[0] == TaskChunks(t)[0];
    }
  }

  /** The stretch that ends the run. */
  lemma FinishFits(d: Demo, t: Task, now: real, base: seq<Record>)
    requires AtChunk(d, t, |TaskChunks(t)|, base)
    ensures var (e, u) := ChunkOrFinish(d, t, |TaskChunks(t)|, now);
            && u.stage.Done? && e.display.Idle?
            && RestFits(e, base + BlockRecords(Block(u, true, if t.response == "" then None else Some(t.response), Elapsed(d, now), now)))
  {
    hide Chunks, SteerRecords;
    SteersJoin(base, [UserPrompt(t.prompt), ToolRecord(false, t.toolElapsed)], t.applied, d.steers);
    DraftComplete(t);
    assert TaskChunks(t) == [] <==> t.response == "";
  }

  lemma ResumeFits(d: Demo, t: Task, now: real, base: seq<Record>)
    requires RunFits(d, t, base) && SleepsFit(t) && ToolInRange(d)
    ensures var (e, u) := Advance(d, t, now);
            && SleepsFit(u) && !u.stage.Aborted?
            && (!t.stage.Created? ==> u.applied == t.applied + d.steers && e.steers == [])
            && (t.stage.Created? ==> u.applied == t.applied && e.steers == d.steers && Suspended(u))
            && (Suspended(u) ==> RunFits(e, u, base) && e.display == d.display)
            && (!Suspended(u) ==>
                  && u.stage.Done? && e.display.Idle?
                  && RestFits(e, base + BlockRecords(Block(u, true, if t.response == "" then None else Some(t.response), Elapsed(d, now), now))))
  {
    hide Chunks, ChunkDelay, BlockRecords, RestFits, SteerRecords;
    if t.stage.ToolSleep? {
      var c, v := CompleteTool(d, now), t.(toolElapsed := Elapsed(d, now), toolAt := now);
      assert c.records == base + [UserPrompt(t.prompt), ToolRecord(false, Elapsed(d, now))] + SteerRecords(t.applied);
      StretchFits(c, v, 0, now, base);
    } else if t.stage.ChunkSleep? {
      StretchFits(d, t, t.stage.sent, now, base);
    }
  }

  lemma StretchFits(d: Demo, t: Task, k: nat, now: real, base: seq<Record>)
    requires AtChunk(d, t, k, base)
    ensures var (e, u) := ChunkOrFinish(d, t, k, now);
            && (k < |TaskChunks(t)| ==> RunFits(e, u, base) && e.display == d.display)
            && (k == |TaskChunks(t)| ==>
                  && u.stage.Done? && e.display.Idle?
                  && RestFits(e, base + BlockRecords(Block(u, true, if t.response == "" then None else Some(t.response), Elapsed(d, now), now))))
  {
    hide Chunks, ChunkOrFinish, AtChunk;
    if k < |TaskChunks(t)| {
      ChunkFits(d, t, k, now, base);
    } else if k == |TaskChunks(t)| {
      FinishFits(d, t, now, base);
    }
  }

  // -------------------------------------------------------------- every step

  lemma LaunchKeepsInv(w: World, demo: Demo, text: string, response: string, duration: real, now: real)
    requires !w.demo.display.Running? && Transcribed(w) && Tasks(w) && (forall b :: b in w.blocks ==> BlockFits(b))
    requires demo == w.demo.(followups := demo.followups)
    requires w.queuedSteers == Applied(w.blocks) + Current(w) + w.demo.steers
    requires w.queued == w.started + demo.followups
    ensures Inv(Launch(w, demo, text, response, duration, now))
  {
    hide Chunks, Transcript, Applied, BlockFits;
    var v := Launch(w, demo, text, response, duration, now);
    var t := v.tasks[|w.tasks|];
    assert v.demo.records == t.before + RunRecords(t);
  }

  lemma CancelKeepsInv(w: World, now: real)
    requires Inv(w) && w.demo.display.Running?
    ensures Inv(Next(w, Cancel(now)))
  {
    hide Chunks, Transcript, Applied, ChunkDelay, Concat, SteerRecords;
    var t := w.tasks[w.active.value];
    var b := Block(t, false, w.demo.draft, Elapsed(w.demo, now), now);
    AppendedBlock(w.blocks, b);
    CancelledRecords(w.demo, t, w.seed, Transcript(w.blocks), now);
    Regrouped(Applied(w.blocks), t.applied, w.demo.steers);
  }

  /** What an abort leaves in the transcript is the block of the run. */
  lemma CancelledRecords(d: Demo, t: Task, seed: seq<Record>, before: seq<Record>, now: real)
    requires d.records == seed + before + RunRecords(t)
    ensures Abort(d, now).records == seed + (before + BlockRecords(Block(t, false, d.draft, Elapsed(d, now), now)))
    ensures Abort(d, now).toolIndex.None? && Abort(d, now).draft.None?
  {
    hide RunRecords;
    assert Abort(d, now).records == seed + before + BlockRecords(Block(t, false, d.draft, Elapsed(d, now), now));
  }

  lemma Regrouped(a: seq<string>, b: seq<string>, c: seq<string>)
    ensures a + b + c == (a + b) + [] + c
  {
  }

  lemma ResumeKeepsInv(w: World, i: nat, now: real)
    requires Inv(w) && i < |w.tasks| && ToolInRange(w.demo)
    ensures Inv(OnResume(w, i, now))
  {
    hide Chunks, Transcript, Applied, ChunkDelay, Advance;
    var t, base := w.tasks[i], w.seed + Transcript(w.blocks);
    var v := OnResume(w, i, now);
    if Suspended(t) {
      ResumeFits(w.demo, t, now, base);
      ResumeKeepsParts(w, i, now);
    } else {
      IdleAdvance(w.demo, t, now);
      assert v == w;
    }
  }

  lemma IdleAdvance(d: Demo, t: Task, now: real)
    requires !Suspended(t) && ToolInRange(d)
    ensures Advance(d, t, now) == (d, t)
  {
  }

  lemma AdvanceKeepsQueue(d: Demo, t: Task, now: real)
    requires ToolInRange(d)
    ensures Advance(d, t, now).0.followups == d.followups
    ensures Advance(d, t, now).1.response == t.response
  {
  }

  lemma ResumeKeepsParts(w: World, i: nat, now: real)
    requires Inv(w) && i < |w.tasks| && ToolInRange(w.demo) && Suspended(w.tasks[i])
    ensures Inv(OnResume(w, i, now))
  {
    hide Chunks, Transcript, Applied, ChunkDelay, Advance, RunRecords, BlockRecords, DraftOf;
    var t, base := w.tasks[i], w.seed + Transcript(w.blocks);
    var v := OnResume(w, i, now);
    ResumeFits(w.demo, t, now, base);
    AdvanceKeepsQueue(w.demo, t, now);
    var u := Advance(w.demo, t, now).1;
    assert v.tasks[i] == u;
    if u.stage.Done? {
      var b := Block(u, true, if u.response == "" then None else Some(u.response), Elapsed(w.demo, now), now);
      AppendedBlock(w.blocks, b);
      assert base + BlockRecords(b) == w.seed + (Transcript(w.blocks) + BlockRecords(b));
      assert Applied(w.blocks) + t.applied + w.demo.steers == (Applied(w.blocks) + (t.applied + w.demo.steers)) + [] + [];
    }
  }

  lemma StepKeepsInv(w: World, action: Action)
    requires Inv(w)
    ensures Inv(Next(w, action))
  {
    hide Chunks, Transcript, Applied, ChunkDelay, Advance, RunRecords, BlockRecords, DraftOf, BlockFits;
    match action
    case Submit(text, response, duration, now) =>
      if !w.demo.display.Running? {
        LaunchKeepsInv(w, w.demo, text, response, duration, now);
      }
    case Followup(text) =>
      assert w.started + (w.demo.followups + [text]) == w.started + w.demo.followups + [text];
    case Steer(text) =>
      var all := Applied(w.blocks) + Current(w);
      assert all + (w.demo.steers + [text]) == all + w.demo.steers + [text];
    case EditLast =>
    case Cancel(now) =>
      if w.demo.display.Running? {
        CancelKeepsInv(w, now);
      }
    case Drain(response, duration, now) =>
      DrainKeepsInv(w, response, duration, now);
    case Resume(i, now) =>
      if i < |w.tasks| && ToolInRange(w.demo) {
        ResumeKeepsInv(w, i, now);
      }
  }

  lemma DrainKeepsInv(w: World, response: string, duration: real, now: real)
    requires Inv(w)
    ensures Inv(Next(w, Drain(response, duration, now)))
  {
    hide Chunks, Transcript, Applied, ChunkDelay, Advance, RunRecords, BlockRecords, DraftOf, BlockFits;
    if w.active.Some? && w.active.value < |w.tasks| && w.tasks[w.active.value].stage.Done? {
      assert !w.demo.display.Running?;
      if w.demo.display.Idle? && w.demo.followups != [] {
        var text := w.demo.followups[0];
        var v := w.(started := w.started + [text]);
        assert w.started + w.demo.followups == v.started + w.demo.followups[1..];
        LaunchKeepsInv(v, w.demo.(followups := w.demo.followups[1..]), text, response, duration, now);
      }
    }
  }

  /** In every interleaving: the transcript is the seeded records, then one block per run that is
      over, then the run that is on; steers and follow-ups are conserved in order. */
  lemma {:induction false} InvAlways(seed: seq<Record>, actions: seq<Action>)
    ensures Inv(Run(seed, actions))
    ensures Run(seed, actions).seed == seed
  {
    hide Inv;
    if actions == [] {
      BeginInv(seed);
    } else {
      InvAlways(seed, actions[..|actions| - 1]);
      StepKeepsInv(Run(seed, actions[..|actions| - 1]), actions[|actions| - 1]);
      SeedStays(Run(seed, actions[..|actions| - 1]), actions[|actions| - 1]);
    }
  }

  lemma BeginInv(seed: seq<Record>)
    ensures Inv(Begin(seed))
  {
    assert seed + Transcript([]) == seed;
  }

  lemma SeedStays(w: World, action: Action)
    ensures Next(w, action).seed == w.seed
  {
  }

  // ----------------------------------------------------------- what it means

  /** At any moment of a run the draft is the text of the chunks sent so far, a prefix of the
      response, and the active index points at this run's own tool record, right after its prompt. */
  lemma DraftIsPrefix(seed: seq<Record>, actions: seq<Action>)
    requires Run(seed, actions).demo.display.Running?
    ensures var w := Run(seed, actions);
            && w.active.Some? && w.active.value < |w.tasks|
            && var t := w.tasks[w.active.value];
               && (w.demo.draft.Some? ==> w.demo.draft.value <= t.response)
               && w.demo.draft == DraftOf(t)
               && w.demo.toolIndex.Some?
               && 0 < w.demo.toolIndex.value < |w.demo.records|
               && w.demo.records[w.demo.toolIndex.value] == ToolOf(t)
               && w.demo.records[w.demo.toolIndex.value - 1] == UserPrompt(t.prompt)
  {
    hide Chunks, Transcript, Run;
    InvAlways(seed, actions);
    var w := Run(seed, actions);
    var t := w.tasks[w.active.value];
    if t.stage.ChunkSleep? {
      ConcatPrefix(TaskChunks(t), t.stage.sent);
      ConcatChunks(t.response, STREAM_CHUNK_SIZE);
    }
  }

  /** The transcript holds the records of every run that is over, in one piece: the prompt, the
      tool, the steers applied, the text committed as a stable message, the divider. A finished
      run committed exactly the whole response and slept exactly its planned time; an aborted one
      committed a prefix of the response, or nothing before the first chunk. */
  lemma EveryBlock(seed: seq<Record>, actions: seq<Action>, i: nat)
    requires i < |Run(seed, actions).blocks|
    ensures var w := Run(seed, actions);
            var b, at := w.blocks[i], |seed| + |Transcript(w.blocks[..i])|;
            && at + |BlockRecords(b)| <= |w.demo.records|
            && w.demo.records[at..at + |BlockRecords(b)|]
               == [UserPrompt(b.task.prompt), ToolOf(b.task)] + SteerRecords(b.task.applied)
                  + (if b.committed.Some? then [AssistantMessage(b.committed.value, true)] else [])
                  + [WorkedDivider(b.elapsed)]
            && (forall j :: 0 <= j < |b.task.applied| ==>
                  SteerRecords(b.task.applied)[j] == Thinking("Steer applied: " + b.task.applied[j], Visible))
            && ToolOf(b.task) == (if b.task.stage.ChunkSleep? || b.task.stage.Done?
                                  then ToolExecution("fake_model_stream", false, b.task.toolElapsed, "markdown chunks")
                                  else ToolExecution("fake_model_stream", true, 0.0, "markdown chunks"))
            && (b.completed ==>
                  && b.committed == (if b.task.response == "" then None else Some(b.task.response))
                  && |b.task.slept| == |TaskChunks(b.task)| + 1
                  && |b.task.response| <= |TaskChunks(b.task)| * 42 < |b.task.response| + 42
                  && Sum(b.task.slept) == if b.task.duration > 0.0 && b.task.response != "" then b.task.duration else 0.0)
            && (!b.completed ==>
                  && (b.committed.Some? <==> b.task.stage.ChunkSleep?)
                  && (b.committed.Some? ==> b.committed.value <= b.task.response))
  {
    hide Run, Chunks, Transcript, Concat, SteerRecords, Sum, SleepsFit;
    InvAlways(seed, actions);
    var w := Run(seed, actions);
    var b := w.blocks[i];
    assert b in w.blocks && BlockFits(b);
    SteersSpelled(b.task.applied);
    BlockCommits(b);
    hide BlockFits;
    BlockInTranscript(seed, w.blocks, i);
    TranscriptShown(w);
  }

  lemma TranscriptShown(w: World)
    requires Inv(w)
    ensures w.seed + Transcript(w.blocks) <= w.demo.records
  {
    hide Transcript, Conserved, BlockFits, SleepsFit, RunRecords;
  }

  lemma BlockCommits(b: Block)
    requires BlockFits(b)
    ensures b.completed ==>
              && b.committed == (if b.task.response == "" then None else Some(b.task.response))
              && |b.task.slept| == |TaskChunks(b.task)| + 1
              && |b.task.response| <= |TaskChunks(b.task)| * 42 < |b.task.response| + 42
              && Sum(b.task.slept) == if b.task.duration > 0.0 && b.task.response != "" then b.task.duration else 0.0
    ensures !b.completed ==>
              && (b.committed.Some? <==> b.task.stage.ChunkSleep?)
              && (b.committed.Some? ==> b.committed.value <= b.task.response)
  {
    hide Chunks, Concat, Sum;
    ChunksAreFull(b.task.response, STREAM_CHUNK_SIZE);
    if b.completed {
      SleptDuration(b.task);
    } else if b.task.stage.ChunkSleep? {
      ConcatPrefix(TaskChunks(b.task), b.task.stage.sent);
      ConcatChunks(b.task.response, STREAM_CHUNK_SIZE);
    }
  }

  lemma SteersSpelled(steers: seq<string>)
    ensures forall j :: 0 <= j < |steers| ==> SteerRecords(steers)[j] == Thinking("Steer applied: " + steers[j], Visible)
  {
  }

  lemma {:induction false} BlockInTranscript(seed: seq<Record>, blocks: seq<Block>, i: nat)
    requires i < |blocks|
    ensures var at, all := |seed| + |Transcript(blocks[..i])|, seed + Transcript(blocks);
            at + |BlockRecords(blocks[i])| <= |all| && all[at..at + |BlockRecords(blocks[i])|] == BlockRecords(blocks[i])
  {
    hide BlockRecords;
    var front := blocks[..|blocks| - 1];
    assert seed + Transcript(blocks) == seed + Transcript(front) + BlockRecords(blocks[|blocks| - 1]);
    if i < |blocks| - 1 {
      BlockInTranscript(seed, front, i);
      assert front[..i] == blocks[..i];
    }
  }

  lemma Divided(duration: real, n: nat)
    ensures (n + 1) as real * (duration / (n + 1) as real) == duration
  {
  }

  lemma SleptDuration(t: Task)
    requires SleepsFit(t) && t.stage.Done?
    ensures Sum(t.slept) == if t.duration > 0.0 && t.response != "" then t.duration else 0.0
  {
    hide Chunks;
    SumConstant(t.slept, TaskDelay(t));
    Divided(t.duration, |TaskChunks(t)|);
    assert TaskChunks(t) == [] <==> t.response == "";
  }

  /** Queue conservation: steers applied, run by run, followed by those pending are those queued;
      follow-ups started followed by those pending are those queued and not taken back. */
  lemma QueuesConserved(seed: seq<Record>, actions: seq<Action>)
    ensures var w := Run(seed, actions);
            && w.queuedSteers == Applied(w.blocks) + Current(w) + w.demo.steers
            && w.queued == w.started + w.demo.followups
  {
    hide Run, Transcript, Applied;
    InvAlways(seed, actions);
  }

  /** An action that ends a run leaves no steer pending when it completes the run, and exactly those
      that were pending when it aborts it. And only a finished run in the idle state lets a
      follow-up start, and does when it is drained and there is one. */
  lemma FinishingAndStarting(seed: seq<Record>, actions: seq<Action>, action: Action)
    ensures var w, v := Run(seed, actions), Next(Run(seed, actions), action);
            && (|v.blocks| > |w.blocks| ==>
                  && v.demo.steers == (if v.blocks[|w.blocks|].completed then [] else w.demo.steers)
                  && v.demo.display == (if v.blocks[|w.blocks|].completed then Idle else Cancelled)
                  && (action.Cancel? ==> v.active.None?))
            && (action.Drain? && w.active.Some? && w.active.value < |w.tasks| && w.tasks[w.active.value].stage.Done? ==>
                  if w.demo.display.Idle? && w.demo.followups != [] then v.started == w.started + [w.demo.followups[0]]
                  else v.active.None? && v.started == w.started)
            && (v.started != w.started ==>
                  && w.demo.display.Idle?
                  && w.demo.followups != [] && v.started == w.started + [w.demo.followups[0]]
                  && v.demo.display.Running?)
  {
    hide Run, Chunks, Transcript, Applied, ChunkDelay, Advance, RunRecords, BlockRecords, RestFits, DraftOf;
    InvAlways(seed, actions);
    var w := Run(seed, actions);
    if action.Resume? && action.task < |w.tasks| && ToolInRange(w.demo) {
      if Suspended(w.tasks[action.task]) {
        ResumeFits(w.demo, w.tasks[action.task], action.now, w.seed + Transcript(w.blocks));
      } else {
        IdleAdvance(w.demo, w.tasks[action.task], action.now);
      }
    }
  }

  // --------------------------------------------------------------------- times

  /** The time from one moment to another, none if the clock went back. */
  function Span(start: real, end: real): real {
    if end < start then 0.0 else end - start
  }

  /** The tool's time is that from the start of the run to the tool's completion. */
  predicate ToolTimed(t: Task) {
    t.stage.ChunkSleep? || t.stage.Done? ==> t.toolElapsed == Span(t.startedAt, t.toolAt)
  }

  /** The clock runs for the run that is on, and for none other; a message of interruption stands from
      an abort to the next start. */
  predicate Clock(w: World) {
    && (w.demo.display.Running? ==>
          && w.active.Some? && w.active.value < |w.tasks|
          && w.demo.startedAt == Some(w.tasks[w.active.value].startedAt)
          && w.demo.planned == w.tasks[w.active.value].duration)
    && (!w.demo.display.Running? ==> w.demo.startedAt.None? && w.demo.planned == 0.0)
    && (w.demo.interrupted <==> w.demo.display == Cancelled)
  }

  predicate Timed(w: World) {
    && Clock(w)
    && (forall i :: 0 <= i < |w.tasks| ==> ToolTimed(w.tasks[i]))
    && (forall b :: b in w.blocks ==> ToolTimed(b.task) && b.elapsed == Span(b.task.startedAt, b.endedAt))
  }

  lemma AdvanceTimes(d: Demo, t: Task, now: real)
    requires ToolInRange(d) && ToolTimed(t) && Suspended(t) && d.startedAt == Some(t.startedAt)
    ensures var (e, u) := Advance(d, t, now);
            && ToolTimed(u) && u.startedAt == t.startedAt && u.duration == t.duration && u.prompt == t.prompt
            && (Suspended(u) ==> e.startedAt == d.startedAt && e.planned == d.planned)
            && (!Suspended(u) ==> e.startedAt.None? && e.planned == 0.0)
            && e.interrupted == d.interrupted
            && Elapsed(d, now) == Span(t.startedAt, now)
  {
    hide Chunks, ChunkDelay, SteerRecords, TaskChunks;
  }

  lemma ResumeKeepsTime(w: World, i: nat, now: real)
    requires Inv(w) && Timed(w) && i < |w.tasks| && ToolInRange(w.demo)
    ensures Timed(OnResume(w, i, now))
  {
    hide Transcribed, Conserved, BlockFits, SleepsFit, Advance, Elapsed, Span;
    var t := w.tasks[i];
    if Suspended(t) {
      AdvanceTimes(w.demo, t, now);
      RunningResume(w, i, now);
    } else {
      IdleAdvance(w.demo, t, now);
      assert OnResume(w, i, now) == w;
    }
  }

  lemma RunningResume(w: World, i: nat, now: real)
    requires Inv(w) && i < |w.tasks| && ToolInRange(w.demo) && Suspended(w.tasks[i])
    ensures var (e, u) := Advance(w.demo, w.tasks[i], now);
            && (Suspended(u) ==> e.display == w.demo.display)
            && (!Suspended(u) ==> e.display == Idle && u.stage == Done)
  {
    hide Chunks, Transcript, Applied, ChunkDelay, Advance, RunRecords, BlockRecords, DraftOf, RestFits;
    ResumeFits(w.demo, w.tasks[i], now, w.seed + Transcript(w.blocks));
  }

  lemma StepKeepsTime(w: World, action: Action)
    requires Inv(w) && Timed(w)
    ensures Timed(Next(w, action))
  {
    hide Conserved, BlockFits, SleepsFit, Advance, RestFits, Chunks, RunRecords, DraftOf;
    if action.Resume? && action.task < |w.tasks| && ToolInRange(w.demo) {
      ResumeKeepsTime(w, action.task, action.now);
    }
  }

  /** In every run: the divider of a run that is over shows the time from its start to its end, its
      tool's record the time to the tool's completion, and the working line counts from the start of
      the run that is on. */
  lemma {:induction false} TimesAlways(seed: seq<Record>, actions: seq<Action>)
    ensures Timed(Run(seed, actions))
  {
    hide Timed, Inv, Next;
    if actions == [] {
      BeginTimed(seed);
    } else {
      InvAlways(seed, actions[..|actions| - 1]);
      TimesAlways(seed, actions[..|actions| - 1]);
      StepKeepsTime(Run(seed, actions[..|actions| - 1]), actions[|actions| - 1]);
    }
  }

  lemma BeginTimed(seed: seq<Record>)
    ensures Timed(Begin(seed))
  {
  }

  // ------------------------------------------------------------------ progress

  /** How often a coroutine has still to be resumed. */
  function StepsLeft(t: Task): nat {
    match t.stage
    case Created => |TaskChunks(t)| + 2
    case ToolSleep => |TaskChunks(t)| + 1
    case ChunkSleep(k) => if k <= |TaskChunks(t)| then |TaskChunks(t)| + 1 - k else 0
    case _ => 0
  }

  lemma AdvanceProgresses(d: Demo, t: Task, now: real)
    requires ToolInRange(d) && Suspended(t) && SleepsFit(t)
    ensures var u := Advance(d, t, now).1;
            StepsLeft(u) == StepsLeft(t) - 1 && (StepsLeft(u) == 0 <==> u.stage.Done?)
  {
    hide Chunks, ChunkDelay;
  }

  function Resumed(w: World, i: nat, times: seq<real>): World {
    if times == [] then w else Next(Resumed(w, i, times[..|times| - 1]), Resume(i, times[|times| - 1]))
  }

  /** Left alone, a run comes to its end: after as many resumptions as it has chunks, and two more, the
      demo is idle and one more block is in the transcript, that of this run and completed. */
  lemma {:induction false} RunsToItsEnd(w: World, times: seq<real>)
    requires Inv(w) && w.demo.display.Running?
    requires w.active.Some? && w.active.value < |w.tasks| && |times| <= StepsLeft(w.tasks[w.active.value])
    ensures var i := w.active.value;
            var v := Resumed(w, i, times);
            && Inv(v) && i < |v.tasks| && v.tasks[i].prompt == w.tasks[i].prompt
            && StepsLeft(v.tasks[i]) == StepsLeft(w.tasks[i]) - |times|
            && (if |times| < StepsLeft(w.tasks[i]) then v.demo.display.Running? && v.active == w.active && v.blocks == w.blocks
                else v.demo.display.Idle? && |v.blocks| == |w.blocks| + 1 && v.blocks[..|w.blocks|] == w.blocks
                     && v.blocks[|w.blocks|].completed && v.blocks[|w.blocks|].task == v.tasks[i])
  {
    hide Chunks, Transcript, Applied, Advance, Next, BlockFits, StepsLeft, SleepsFit, Conserved;
    ActiveInRange(w);
    StepsAreLeft(w.tasks[w.active.value]);
    if times != [] {
      var i, n := w.active.value, |times| - 1;
      RunsToItsEnd(w, times[..n]);
      var v := Resumed(w, i, times[..n]);
      OneResumption(v, i, times[n]);
    }
  }

  lemma StepsAreLeft(t: Task)
    requires Suspended(t) && SleepsFit(t)
    ensures StepsLeft(t) > 0
  {
    hide Chunks, ChunkDelay;
  }

  lemma OneResumption(w: World, i: nat, now: real)
    requires Inv(w) && w.demo.display.Running? && w.active == Some(i) && i < |w.tasks|
    ensures var v := Next(w, Resume(i, now));
            && Inv(v) && i < |v.tasks| && v.tasks[i].prompt == w.tasks[i].prompt
            && StepsLeft(w.tasks[i]) > 0 && StepsLeft(v.tasks[i]) == StepsLeft(w.tasks[i]) - 1
            && (if StepsLeft(v.tasks[i]) > 0 then v.demo.display.Running? && v.active == w.active && v.blocks == w.blocks
                else v.demo.display.Idle? && |v.blocks| == |w.blocks| + 1 && v.blocks[..|w.blocks|] == w.blocks
                     && v.blocks[|w.blocks|].completed && v.blocks[|w.blocks|].task == v.tasks[i])
  {
    ActiveInRange(w);
    ResumeKeepsInv(w, i, now);
    AdvanceProgresses(w.demo, w.tasks[i], now);
    RunningResume(w, i, now);
    AdvanceKeepsPrompt(w.demo, w.tasks[i], now);
    hide Inv, Advance, StepsLeft, Elapsed;
  }

  lemma ActiveInRange(w: World)
    requires Inv(w) && w.demo.display.Running?
    ensures ToolInRange(w.demo) && w.active.Some? && w.active.value < |w.tasks|
    ensures Suspended(w.tasks[w.active.value]) && SleepsFit(w.tasks[w.active.value])
  {
    hide Conserved, BlockFits, Transcript, SleepsFit, Applied;
  }

  lemma AdvanceKeepsPrompt(d: Demo, t: Task, now: real)
    requires ToolInRange(d)
    ensures Advance(d, t, now).1.prompt == t.prompt
  {
  }
}
