/**
 The native live client (gui/src/client/nativeLiveClient.ts): it accepts an initial snapshot
 per connection epoch, then numbered rounds, each a list of events per member and the
 authoritative Sessions after them. Anything that does not fit is refused as a whole.
 `wellFormed` stands for the field checks (identifiers, lengths, enumerations) of a value.
 */
module NativeLive {
  import opened Options
  import opened Decimals

  datatype Member = Member(memberId: string, sessionId: string)

  /** One Session of a snapshot: its content cursor, its execution revision and the rest. */
  datatype Facts = Facts(sessionId: string, cursor: string, revision: int, title: string)

  datatype Initial = Initial(
    wellFormed: bool, epoch: string, instance: string, mux: string,
    members: seq<Member>, sessions: seq<Facts>)

  datatype LiveEvent =
    | Content(wellFormed: bool, sessionId: string, cursor: string)
    | Execution(wellFormed: bool, revision: int)

  datatype MemberEvents = MemberEvents(memberId: string, sessionId: string, events: seq<LiveEvent>)

  datatype Round = Round(
    wellFormed: bool, epoch: string, instance: string, mux: string, sequence: string,
    members: seq<MemberEvents>, sessions: seq<Facts>)

  /** `contentCursors` and `executionRevisions`. */
  datatype Progress = Progress(cursors: map<string, string>, revisions: map<string, int>)

  datatype Live = Live(current: Initial, sequence: string, progress: Progress)

  const MAX_SAFE_INTEGER := 9007199254740991

  predicate SafeCounter(n: int) {
    0 <= n <= MAX_SAFE_INTEGER
  }

  /** `validateInitialSnapshot`. */
  predicate ValidInitial(v: Initial) {
    && v.wellFormed
    && MatchesPositive(v.epoch)
    && |v.members| == |v.sessions| <= 128
    && forall i :: 0 <= i < |v.sessions| ==>
                     && v.sessions[i].sessionId == v.members[i].sessionId
                     && MatchesCounter(v.sessions[i].cursor)
                     && SafeCounter(v.sessions[i].revision)
  }

  /** The progress a list of Sessions stands for; for a repeated id the later one counts. */
  function Marks(sessions: seq<Facts>): Progress {
    if sessions == [] then Progress(map[], map[])
    else
      var last := sessions[|sessions| - 1];
      Mark(Marks(sessions[..|sessions| - 1]), last.sessionId, last.cursor, last.revision)
  }

  function Mark(p: Progress, id: string, cursor: string, revision: int): Progress {
    Progress(p.cursors[id := cursor], p.revisions[id := revision])
  }

  function CursorOf(p: Progress, id: string): string {
    if id in p.cursors then p.cursors[id] else "0"
  }

  function RevisionOf(p: Progress, id: string): int {
    if id in p.revisions then p.revisions[id] else 0
  }

  // ----------------------------------------------------------- one round

  /** An event is accepted only as the exact successor of what its Session has seen. */
  function OnLiveEvent(p: Progress, id: string, e: LiveEvent): Option<Progress> {
    match e
    case Content(wellFormed, sessionId, cursor) =>
      if !wellFormed || sessionId != id || !MatchesPositive(cursor) || !MatchesCounter(CursorOf(p, id))
         || cursor != Print(Parse(CursorOf(p, id)) + 1)
      then None
      else Some(p.(cursors := p.cursors[id := cursor]))
    case Execution(wellFormed, revision) =>
      if !wellFormed || !SafeCounter(revision) || revision != RevisionOf(p, id) + 1 then None
      else Some(p.(revisions := p.revisions[id := revision]))
  }

  function Scan(p: Progress, id: string, events: seq<LiveEvent>): Option<Progress> {
    if events == [] then Some(p)
    else
      match Scan(p, id, events[..|events| - 1])
      case None => None
      case Some(q) => OnLiveEvent(q, id, events[|events| - 1])
  }

  function ScanMembers(p: Progress, expected: seq<Member>, members: seq<MemberEvents>): Option<Progress>
    requires |members| <= |expected|
  {
    if members == [] then Some(p)
    else
      var last, want := members[|members| - 1], expected[|members| - 1];
      match ScanMembers(p, expected, members[..|members| - 1])
      case None => None
      case Some(q) =>
        if last.memberId != want.memberId || last.sessionId != want.sessionId then None
        else Scan(q, want.sessionId, last.events)
  }

  /** The snapshot of a round may not fall behind the last snapshot nor behind the events. */
  function Watermark(p: Progress, before: seq<Facts>, after: seq<Facts>): Option<Progress>
    requires |after| <= |before|
    requires forall i :: 0 <= i < |before| ==> MatchesCounter(before[i].cursor)
    requires forall i :: 0 <= i < |after| ==> MatchesCounter(after[i].cursor)
  {
    if after == [] then Some(p)
    else
      var n := |after| - 1;
      match Watermark(p, before, after[..n])
      case None => None
      case Some(q) =>
        var id := after[n].sessionId;
        if CompareDecimal(after[n].cursor, before[n].cursor) < 0
           || !MatchesCounter(CursorOf(q, id))
           || CompareDecimal(after[n].cursor, CursorOf(q, id)) < 0
           || after[n].revision < RevisionOf(q, id)
        then None
        else Some(Mark(q, id, after[n].cursor, after[n].revision))
  }

  /** `validateEventRound`, with the snapshot it hands on. */
  function CheckRound(live: Live, round: Round): Option<Live>
    requires ValidInitial(live.current)
  {
    var c := live.current;
    var next := c.(sessions := round.sessions);
    if !round.wellFormed || round.epoch != c.epoch || round.instance != c.instance || round.mux != c.mux then None
    else if !MatchesPositive(round.sequence) || !MatchesCounter(live.sequence)
            || round.sequence != Print(Parse(live.sequence) + 1) then None
    else if |round.members| != |c.members| then None
    else
      match ScanMembers(live.progress, c.members, round.members)
      case None => None
      case Some(scanned) =>
        if !ValidInitial(next) then None
        else
          match Watermark(scanned, c.sessions, next.sessions)
          case None => None
          case Some(marked) => Some(Live(next, round.sequence, marked))
  }

  // ----------------------------------------------------------- the client

  class NativeLiveClient {
    var live: Option<Live>
    var deliveredInitial: bool
    var published: seq<Initial>   // snapshots handed to the listeners, oldest first
    var promised: Option<Initial> // what the promise of a first snapshot has settled to
    var handed: Option<Initial>   // the snapshot handed out last, to whomever
    var resyncNotices: nat

    /** Once a first snapshot has been handed out, the one handed out last is the one accepted last. */
    predicate Valid()
      reads this
    {
      && (live.Some? ==> ValidInitial(live.value.current))
      && (promised.Some? ==> live.Some?)
      && (live.Some? ==> promised.Some? || deliveredInitial)
      && (deliveredInitial ==> live.Some? && handed == Some(live.value.current))
    }

    constructor ()
      ensures Valid() && live.None? && published == [] && promised.None? && !deliveredInitial && resyncNotices == 0
    {
      live, published, promised, handed := None, [], None, None;
      deliveredInitial, resyncNotices := false, 0;
    }

    /** `snapshot()` from where it is resumed: it waits for the first snapshot there is, and hands
        out the one accepted last, which may be newer. */
    method Snapshot() returns (r: Option<Initial>)
      requires Valid()
      modifies this`deliveredInitial, this`handed
      ensures Valid()
      ensures r == if live.Some? then Some(live.value.current) else None
      ensures deliveredInitial == (old(deliveredInitial) || live.Some?)
    {
      if live.None? {
        return None;
      }
      deliveredInitial := true;
      handed := Some(live.value.current);
      r := handed;
    }

    /** An opening is pushed to the listeners once a first snapshot has been handed out, and settles
        the promise of it, which it does once, before that. */
    method AcceptInitial(value: Initial)
      requires Valid()
      modifies this
      ensures Valid()
      ensures deliveredInitial == old(deliveredInitial)
      ensures if ValidInitial(value)
              then live == Some(Live(value, "0", Marks(value.sessions)))
                   && published == (if deliveredInitial then old(published) + [value] else old(published))
                   && promised == (if deliveredInitial || old(promised).Some? then old(promised) else Some(value))
                   && resyncNotices == old(resyncNotices)
              else live == old(live) && published == old(published) && promised == old(promised)
                   && resyncNotices == old(resyncNotices) + 1
    {
      if !ValidInitial(value) {
        resyncNotices := resyncNotices + 1;
        return;
      }
      var cursors: map<string, string>, revisions: map<string, int> := map[], map[];
      for i := 0 to |value.sessions|
        invariant Progress(cursors, revisions) == Marks(value.sessions[..i])
      {
        assert value.sessions[..i + 1][..i] == value.sessions[..i];
        cursors := cursors[value.sessions[i].sessionId := value.sessions[i].cursor];
        revisions := revisions[value.sessions[i].sessionId := value.sessions[i].revision];
      }
      assert value.sessions[..|value.sessions|] == value.sessions;
      live := Some(Live(value, "0", Progress(cursors, revisions)));
      if deliveredInitial {
        published, handed := published + [value], Some(value);
      } else if promised.None? {
        promised := Some(value);
      }
    }

    /** The nested loops over members and events of `validateEventRound`. */
    method ScanRound(p: Progress, expected: seq<Member>, members: seq<MemberEvents>) returns (r: Option<Progress>)
      requires |members| == |expected|
      ensures r == ScanMembers(p, expected, members)
    {
      hide OnLiveEvent, Parse, Print;
      var q := p;
      for i := 0 to |members|
        invariant ScanMembers(p, expected, members[..i]) == Some(q)
      {
        assert members[..i + 1][..i] == members[..i];
        var item, want := members[i], expected[i];
        ghost var before := q;
        if item.memberId != want.memberId || item.sessionId != want.sessionId {
          FailedPrefix(p, expected, members, i + 1);
          return None;
        }
        for j := 0 to |item.events|
          invariant Scan(before, want.sessionId, item.events[..j]) == Some(q)
        {
          assert item.events[..j + 1][..j] == item.events[..j];
          var step := OnLiveEvent(q, want.sessionId, item.events[j]);
          if step.None? {
            FailedScan(before, want.sessionId, item.events, j + 1);
            FailedPrefix(p, expected, members, i + 1);
            return None;
          }
          q := step.value;
        }
        assert item.events[..|item.events|] == item.events;
      }
      assert members[..|members|] == members;
      r := Some(q);
    }

    method CheckWatermark(p: Progress, before: seq<Facts>, after: seq<Facts>) returns (r: Option<Progress>)
      requires |after| <= |before|
      requires forall i :: 0 <= i < |before| ==> MatchesCounter(before[i].cursor)
      requires forall i :: 0 <= i < |after| ==> MatchesCounter(after[i].cursor)
      ensures r == Watermark(p, before, after)
    {
      hide CompareDecimal, CursorOf, RevisionOf, Parse;
      var q := p;
      for i := 0 to |after|
        invariant Watermark(p, before, after[..i]) == Some(q)
      {
        assert after[..i + 1][..i] == after[..i];
        var id := after[i].sessionId;
        if CompareDecimal(after[i].cursor, before[i].cursor) < 0
           || !MatchesCounter(CursorOf(q, id))
           || CompareDecimal(after[i].cursor, CursorOf(q, id)) < 0
           || after[i].revision < RevisionOf(q, id)
        {
          FailedWatermark(p, before, after, i + 1);
          return None;
        }
        q := Mark(q, id, after[i].cursor, after[i].revision);
      }
      assert after[..|after|] == after;
      r := Some(q);
    }

    method AcceptRound(round: Round)
      requires Valid()
      modifies this
      ensures Valid()
      ensures var next := if old(live).None? then None else CheckRound(old(live).value, round);
              if next.Some?
              then live == next && published == old(published) + [next.value.current] && handed == Some(next.value.current)
                   && resyncNotices == old(resyncNotices)
              else live == old(live) && published == old(published) && resyncNotices == old(resyncNotices) + 1
    {
      hide Parse, Print, Scan, ScanMembers, Watermark, MatchesCounter;
      if live.None? {
        resyncNotices := resyncNotices + 1;
        return;
      }
      var c := live.value.current;
      var next := c.(sessions := round.sessions);
      var successor := Successor(live.value.sequence);
      if !round.wellFormed || round.epoch != c.epoch || round.instance != c.instance || round.mux != c.mux
         || !MatchesPositive(round.sequence) || successor.None? || round.sequence != successor.value
         || |round.members| != |c.members|
      {
        resyncNotices := resyncNotices + 1;
        return;
      }
      var scanned := ScanRound(live.value.progress, c.members, round.members);
      if scanned.None? || !ValidInitial(next) {
        resyncNotices := resyncNotices + 1;
        return;
      }
      var marked := CheckWatermark(scanned.value, c.sessions, next.sessions);
      if marked.None? {
        resyncNotices := resyncNotices + 1;
        return;
      }
      live := Some(Live(next, round.sequence, marked.value));
      published, handed := published + [next], Some(next);
    }
  }

  lemma {:induction false} FailedScan(p: Progress, id: string, events: seq<LiveEvent>, n: nat)
    requires n <= |events| && Scan(p, id, events[..n]).None?
    ensures Scan(p, id, events).None?
  {
    if n == |events| {
      assert events[..n] == events;
    } else {
      var shorter := events[..|events| - 1];
      assert shorter[..n] == events[..n];
      FailedScan(p, id, shorter, n);
    }
  }

  lemma {:induction false} FailedPrefix(p: Progress, expected: seq<Member>, members: seq<MemberEvents>, n: nat)
    requires n <= |members| <= |expected| && ScanMembers(p, expected, members[..n]).None?
    ensures ScanMembers(p, expected, members).None?
  {
    if n == |members| {
      assert members[..n] == members;
    } else {
      var shorter := members[..|members| - 1];
      assert shorter[..n] == members[..n];
      FailedPrefix(p, expected, shorter, n);
    }
  }

  lemma {:induction false} FailedWatermark(p: Progress, before: seq<Facts>, after: seq<Facts>, n: nat)
    requires n <= |after| <= |before|
    requires forall i :: 0 <= i < |before| ==> MatchesCounter(before[i].cursor)
    requires forall i :: 0 <= i < |after| ==> MatchesCounter(after[i].cursor)
    requires Watermark(p, before, after[..n]).None?
    ensures Watermark(p, before, after).None?
  {
    if n == |after| {
      assert after[..n] == after;
    } else {
      var shorter := after[..|after| - 1];
      assert shorter[..n] == after[..n];
      FailedWatermark(p, before, shorter, n);
    }
  }

  // ---------------------------------------------- accepted exactly when gapless

  function Contents(events: seq<LiveEvent>): (n: nat)
    ensures n <= |events|
  {
    if events == [] then 0
    else Contents(events[..|events| - 1]) + if events[|events| - 1].Content? then 1 else 0
  }

  /** Event `i` is numbered as the one right after everything before it. */
  predicate InOrder(p: Progress, id: string, events: seq<LiveEvent>, i: nat)
    requires i < |events| && MatchesCounter(CursorOf(p, id))
  {
    var before := events[..i];
    match events[i]
    case Content(wellFormed, sessionId, cursor) =>
      wellFormed && sessionId == id && cursor == Print(Parse(CursorOf(p, id)) + Contents(before) + 1)
    case Execution(wellFormed, revision) =>
      wellFormed && SafeCounter(revision) && revision == RevisionOf(p, id) + |before| - Contents(before) + 1
  }

  /** After its events pass, a member's two counters have moved by exactly their number. */
  lemma {:induction false} ScanEffect(p: Progress, id: string, events: seq<LiveEvent>)
    requires MatchesCounter(CursorOf(p, id)) && Scan(p, id, events).Some?
    ensures var q := Scan(p, id, events).value;
            && CursorOf(q, id) == Print(Parse(CursorOf(p, id)) + Contents(events))
            && RevisionOf(q, id) == RevisionOf(p, id) + |events| - Contents(events)
  {
    hide Parse, Print;
    if events == [] {
      PrintOfParse(CursorOf(p, id));
    } else {
      var shorter := events[..|events| - 1];
      ScanEffect(p, id, shorter);
      PrintIsCanonical(Parse(CursorOf(p, id)) + Contents(shorter));
    }
  }

  /** A member's events pass exactly when both of its counters run on without a gap, a repeat
      or a swap. */
  lemma {:induction false} ScanIffInOrder(p: Progress, id: string, events: seq<LiveEvent>)
    requires MatchesCounter(CursorOf(p, id))
    ensures Scan(p, id, events).Some? <==> forall i :: 0 <= i < |events| ==> InOrder(p, id, events, i)
  {
    hide Parse, Print, MatchesPositive, CursorOf, RevisionOf;
    if events != [] {
      var n := |events| - 1;
      var shorter := events[..n];
      ScanIffInOrder(p, id, shorter);
      forall i | 0 <= i < n
        ensures InOrder(p, id, events, i) == InOrder(p, id, shorter, i)
      {
        assert shorter[..i] == events[..i];
      }
      if Scan(p, id, shorter).Some? {
        ScanEffect(p, id, shorter);
        LastInOrder(p, Scan(p, id, shorter).value, id, events);
      } else {
        var i :| 0 <= i < n && !InOrder(p, id, shorter, i);
        assert !InOrder(p, id, events, i);
      }
    }
  }

  lemma LastInOrder(p: Progress, q: Progress, id: string, events: seq<LiveEvent>)
    requires events != [] && MatchesCounter(CursorOf(p, id))
    requires var shorter := events[..|events| - 1];
             && CursorOf(q, id) == Print(Parse(CursorOf(p, id)) + Contents(shorter))
             && RevisionOf(q, id) == RevisionOf(p, id) + |shorter| - Contents(shorter)
    ensures OnLiveEvent(q, id, events[|events| - 1]).Some? <==> InOrder(p, id, events, |events| - 1)
  {
    hide Parse, Print, CursorOf, RevisionOf;
    var n := Parse(CursorOf(p, id)) + Contents(events[..|events| - 1]);
    PrintIsCanonical(n);
    PrintIsCanonical(n + 1);
  }

  // -------------------------------------------------- one Session in a round

  /** No later member has the Session of member `i`: of several, this is the one on screen. */
  ghost predicate Newest(members: seq<Member>, i: nat) {
    i < |members| && forall j :: i < j < |members| ==> members[j].sessionId != members[i].sessionId
  }

  predicate SameMarks(p: Progress, q: Progress, id: string) {
    CursorOf(p, id) == CursorOf(q, id) && RevisionOf(p, id) == RevisionOf(q, id)
  }

  lemma {:induction false} ScanOthers(p: Progress, id: string, events: seq<LiveEvent>, other: string)
    requires Scan(p, id, events).Some?
    ensures other != id ==> SameMarks(Scan(p, id, events).value, p, other)
    ensures Scan(p, id, events).value.cursors.Keys <= p.cursors.Keys + {id}
    ensures Scan(p, id, events).value.revisions.Keys <= p.revisions.Keys + {id}
  {
    hide Parse, Print;
    if events != [] {
      ScanOthers(p, id, events[..|events| - 1], other);
    }
  }

  lemma {:induction false} ScanLocal(p: Progress, q: Progress, id: string, events: seq<LiveEvent>)
    requires SameMarks(p, q, id)
    ensures Scan(p, id, events).Some? == Scan(q, id, events).Some?
    ensures Scan(p, id, events).Some? ==> SameMarks(Scan(p, id, events).value, Scan(q, id, events).value, id)
  {
    hide Parse, Print, MatchesPositive, MatchesCounter;
    if events != [] {
      ScanLocal(p, q, id, events[..|events| - 1]);
    }
  }

  lemma {:induction false} ScanConcat(p: Progress, id: string, a: seq<LiveEvent>, b: seq<LiveEvent>)
    ensures Scan(p, id, a + b) == if Scan(p, id, a).None? then None else Scan(Scan(p, id, a).value, id, b)
  {
    hide OnLiveEvent;
    if b == [] {
      assert a + b == a;
    } else {
      assert (a + b)[..|a + b| - 1] == a + b[..|b| - 1];
      ScanConcat(p, id, a, b[..|b| - 1]);
    }
  }

  /** The events of all members that have a Session, in member order. */
  function EventsOf(expected: seq<Member>, members: seq<MemberEvents>, id: string): seq<LiveEvent>
    requires |members| <= |expected|
  {
    if members == [] then []
    else
      var n := |members| - 1;
      EventsOf(expected, members[..n], id) + if expected[n].sessionId == id then members[n].events else []
  }

  /** A round checks them as one list against what the Session stood at before. */
  lemma {:induction false} ScanMembersOf(p: Progress, expected: seq<Member>, members: seq<MemberEvents>, id: string)
    requires |members| <= |expected| && ScanMembers(p, expected, members).Some?
    ensures var one := Scan(p, id, EventsOf(expected, members, id));
            one.Some? && SameMarks(ScanMembers(p, expected, members).value, one.value, id)
  {
    hide Parse, Print, CursorOf, RevisionOf, Scan;
    if members == [] {
      NoEvents(p, id);
    } else {
      var n := |members| - 1;
      ScanMembersOf(p, expected, members[..n], id);
      var q, one := ScanMembers(p, expected, members[..n]).value, Scan(p, id, EventsOf(expected, members[..n], id)).value;
      ScanOthers(q, expected[n].sessionId, members[n].events, id);
      if expected[n].sessionId == id {
        ScanLocal(q, one, id, members[n].events);
        ScanConcat(p, id, EventsOf(expected, members[..n], id), members[n].events);
      } else {
        assert EventsOf(expected, members, id) == EventsOf(expected, members[..n], id);
      }
    }
  }

  lemma NoEvents(p: Progress, id: string)
    ensures Scan(p, id, []) == Some(p)
  {
  }

  predicate AllCounters(sessions: seq<Facts>) {
    forall i :: 0 <= i < |sessions| ==> MatchesCounter(sessions[i].cursor)
  }

  /** Marking a list of Sessions over some progress. */
  function Over(p: Progress, sessions: seq<Facts>): Progress {
    Progress(p.cursors + Marks(sessions).cursors, p.revisions + Marks(sessions).revisions)
  }

  lemma MergeThenUpdate<V>(a: map<string, V>, b: map<string, V>, id: string, v: V)
    ensures (a + b)[id := v] == a + b[id := v]
  {
  }

  lemma {:induction false} WatermarkMarks(p: Progress, before: seq<Facts>, after: seq<Facts>)
    requires |after| <= |before| && AllCounters(before) && AllCounters(after)
    requires Watermark(p, before, after).Some?
    ensures Watermark(p, before, after).value == Over(p, after)
  {
    hide Parse, CompareDecimal, CursorOf, RevisionOf, MatchesPositive;
    if after == [] {
      assert p.cursors + map[] == p.cursors && p.revisions + map[] == p.revisions;
    } else {
      var shorter, last := after[..|after| - 1], after[|after| - 1];
      WatermarkMarks(p, before, shorter);
      MergeThenUpdate(p.cursors, Marks(shorter).cursors, last.sessionId, last.cursor);
      MergeThenUpdate(p.revisions, Marks(shorter).revisions, last.sessionId, last.revision);
    }
  }

  lemma {:induction false} UnmarkedStays(p: Progress, sessions: seq<Facts>, id: string)
    requires forall j :: 0 <= j < |sessions| ==> sessions[j].sessionId != id
    ensures id !in Marks(sessions).cursors && id !in Marks(sessions).revisions
    ensures SameMarks(Over(p, sessions), p, id)
  {
    if sessions != [] {
      UnmarkedStays(p, sessions[..|sessions| - 1], id);
    }
  }

  /** Session `i` of the new snapshot is behind neither the Session in its place before nor the
      last mark of its id: that of its events, or of an earlier entry of the new snapshot. */
  predicate Ahead(p: Progress, before: seq<Facts>, after: seq<Facts>, i: nat)
    requires i < |after| <= |before| && AllCounters(before) && AllCounters(after)
  {
    var marks, id := Over(p, after[..i]), after[i].sessionId;
    && Parse(before[i].cursor) <= Parse(after[i].cursor)
    && MatchesCounter(CursorOf(marks, id))
    && Parse(CursorOf(marks, id)) <= Parse(after[i].cursor)
    && RevisionOf(marks, id) <= after[i].revision
  }

  /** A snapshot passes exactly when every Session in it is ahead, repeated ids included. */
  lemma {:induction false} WatermarkIff(p: Progress, before: seq<Facts>, after: seq<Facts>)
    requires |after| <= |before| && AllCounters(before) && AllCounters(after)
    ensures Watermark(p, before, after).Some? <==> forall i :: 0 <= i < |after| ==> Ahead(p, before, after, i)
  {
    hide Parse, CompareDecimal, CursorOf, RevisionOf, Over, Ahead, MatchesPositive;
    if after != [] {
      var n := |after| - 1;
      var shorter := after[..n];
      WatermarkIff(p, before, shorter);
      forall i | 0 <= i < n
        ensures Ahead(p, before, after, i) == Ahead(p, before, shorter, i)
      {
        AheadOfPrefix(p, before, after, n, i);
      }
      if Watermark(p, before, shorter).Some? {
        WatermarkMarks(p, before, shorter);
        LastAhead(p, before, after);
      } else {
        var i :| 0 <= i < n && !Ahead(p, before, shorter, i);
        assert !Ahead(p, before, after, i);
      }
    }
  }

  lemma AheadOfPrefix(p: Progress, before: seq<Facts>, after: seq<Facts>, n: nat, i: nat)
    requires i < n <= |after| <= |before| && AllCounters(before) && AllCounters(after)
    ensures Ahead(p, before, after[..n], i) == Ahead(p, before, after, i)
  {
    hide Parse, CursorOf, RevisionOf, Over, MatchesCounter;
    assert after[..n][..i] == after[..i];
  }

  lemma LastAhead(p: Progress, before: seq<Facts>, after: seq<Facts>)
    requires after != [] && |after| <= |before| && AllCounters(before) && AllCounters(after)
    requires Watermark(p, before, after[..|after| - 1]) == Some(Over(p, after[..|after| - 1]))
    ensures Watermark(p, before, after).Some? <==> Ahead(p, before, after, |after| - 1)
  {
    hide Parse, CompareDecimal, CursorOf, RevisionOf, Over, MatchesPositive;
    var n := |after| - 1;
    CompareDecimalIsNumeric(after[n].cursor, before[n].cursor);
    var mark := CursorOf(Over(p, after[..n]), after[n].sessionId);
    if MatchesCounter(mark) {
      CompareDecimalIsNumeric(after[n].cursor, mark);
    }
  }

  lemma {:induction false} WatermarkPrefix(p: Progress, before: seq<Facts>, after: seq<Facts>, n: nat)
    requires n <= |after| <= |before| && AllCounters(before) && AllCounters(after) && Watermark(p, before, after).Some?
    ensures Watermark(p, before, after[..n]).Some?
  {
    hide CompareDecimal, CursorOf, RevisionOf, MatchesCounter;
    if n == |after| {
      assert after[..n] == after;
    } else {
      WatermarkPrefix(p, before, after[..|after| - 1], n);
      assert after[..|after| - 1][..n] == after[..n];
    }
  }

  /** Checking a snapshot only ever raises a mark. */
  lemma {:induction false} MarksRise(p: Progress, before: seq<Facts>, after: seq<Facts>, id: string)
    requires |after| <= |before| && AllCounters(before) && AllCounters(after) && Watermark(p, before, after).Some?
    requires MatchesCounter(CursorOf(p, id))
    ensures var q := Watermark(p, before, after).value;
            && MatchesCounter(CursorOf(q, id))
            && Parse(CursorOf(p, id)) <= Parse(CursorOf(q, id)) && RevisionOf(p, id) <= RevisionOf(q, id)
  {
    hide Parse, CompareDecimal, MatchesPositive;
    if after != [] {
      var n := |after| - 1;
      MarksRise(p, before, after[..n], id);
      var q := Watermark(p, before, after[..n]).value;
      if after[n].sessionId == id {
        CompareDecimalIsNumeric(after[n].cursor, CursorOf(q, id));
      }
    }
  }

  lemma MarkIsCounter(p: Progress, before: seq<Facts>, after: seq<Facts>, i: nat)
    requires i < |after| <= |before| && AllCounters(before) && AllCounters(after)
    requires forall j :: 0 <= j < |after| ==> Ahead(p, before, after, j)
    ensures MatchesCounter(CursorOf(p, after[i].sessionId))
  {
    hide Parse, CursorOf, RevisionOf, Over, MatchesCounter;
    if j :| 0 <= j < i && after[j].sessionId == after[i].sessionId {
      MarkIsCounter(p, before, after, j);
    } else {
      UnmarkedStays(p, after[..i], after[i].sessionId);
      assert Ahead(p, before, after, i);
    }
  }

  /** So in a snapshot that passes no Session is behind the one in its place before, nor behind the
      events of its id, in cursor and in revision. */
  lemma WatermarkAt(p: Progress, before: seq<Facts>, after: seq<Facts>, i: nat)
    requires i < |after| <= |before| && AllCounters(before) && AllCounters(after)
    requires Watermark(p, before, after).Some?
    ensures Parse(before[i].cursor) <= Parse(after[i].cursor)
    ensures MatchesCounter(CursorOf(p, after[i].sessionId))
    ensures Parse(CursorOf(p, after[i].sessionId)) <= Parse(after[i].cursor)
    ensures RevisionOf(p, after[i].sessionId) <= after[i].revision
  {
    hide Parse, CursorOf, RevisionOf, Over, Watermark, MatchesCounter;
    WatermarkIff(p, before, after);
    assert Ahead(p, before, after, i);
    MarkIsCounter(p, before, after, i);
    WatermarkPrefix(p, before, after, i);
    WatermarkMarks(p, before, after[..i]);
    MarksRise(p, before, after[..i], after[i].sessionId);
  }

  // ----------------------------------------------------------- whole epochs

  datatype Message = Opening(value: Initial) | Numbered(round: Round)

  /** What is on screen, and how many rounds have been accepted since the last opening. */
  datatype State = State(live: Option<Live>, rounds: nat)

  predicate Shown(s: State) {
    s.live.Some? ==> ValidInitial(s.live.value.current)
  }

  function OnMessage(s: State, m: Message): (t: State)
    requires Shown(s)
    ensures Shown(t)
  {
    match m
    case Opening(v) => if ValidInitial(v) then State(Some(Live(v, "0", Marks(v.sessions))), 0) else s
    case Numbered(round) =>
      if s.live.None? || CheckRound(s.live.value, round).None? then s
      else State(CheckRound(s.live.value, round), s.rounds + 1)
  }

  function Onwards(s: State, messages: seq<Message>): (t: State)
    requires Shown(s)
    ensures Shown(t)
  {
    if messages == [] then s else OnMessage(Onwards(s, messages[..|messages| - 1]), messages[|messages| - 1])
  }

  /** Nothing is remembered beyond what is on screen, and the sequence counts the rounds. */
  predicate Inv(s: State) {
    s.live.Some? ==>
      && ValidInitial(s.live.value.current)
      && s.live.value.progress == Marks(s.live.value.current.sessions)
      && s.live.value.sequence == Print(s.rounds)
  }

  lemma {:induction false} SameIdsSameKeys(a: seq<Facts>, b: seq<Facts>)
    requires |a| == |b| && forall i :: 0 <= i < |a| ==> a[i].sessionId == b[i].sessionId
    ensures Marks(a).cursors.Keys == Marks(b).cursors.Keys
    ensures Marks(a).revisions.Keys == Marks(b).revisions.Keys
    ensures forall i :: 0 <= i < |a| ==> a[i].sessionId in Marks(a).cursors && a[i].sessionId in Marks(a).revisions
  {
    if a != [] {
      var n := |a| - 1;
      SameIdsSameKeys(a[..n], b[..n]);
      assert forall i :: 0 <= i < n ==> a[..n][i] == a[i];
    }
  }

  lemma {:induction false} ScanMembersKeys(p: Progress, expected: seq<Member>, members: seq<MemberEvents>)
    requires |members| <= |expected| && ScanMembers(p, expected, members).Some?
    requires forall i :: 0 <= i < |expected| ==> expected[i].sessionId in p.cursors && expected[i].sessionId in p.revisions
    ensures ScanMembers(p, expected, members).value.cursors.Keys <= p.cursors.Keys
    ensures ScanMembers(p, expected, members).value.revisions.Keys <= p.revisions.Keys
  {
    hide Scan;
    if members != [] {
      var n := |members| - 1;
      ScanMembersKeys(p, expected, members[..n]);
      ScanOthers(ScanMembers(p, expected, members[..n]).value, expected[n].sessionId, members[n].events, "");
    }
  }

  /** An accepted round leaves exactly the marks of its own snapshot. */
  lemma AcceptedMarks(live: Live, round: Round)
    requires ValidInitial(live.current) && live.progress == Marks(live.current.sessions)
    requires CheckRound(live, round).Some?
    ensures CheckRound(live, round).value.progress == Marks(round.sessions)
  {
    hide Parse, Print, Scan, ScanMembers, CompareDecimal, MatchesPositive, MatchesCounter, Watermark;
    var scanned := ScanMembers(live.progress, live.current.members, round.members).value;
    SameIdsSameKeys(live.current.sessions, round.sessions);
    forall i | 0 <= i < |live.current.members|
      ensures live.current.members[i].sessionId in live.progress.cursors
      ensures live.current.members[i].sessionId in live.progress.revisions
    {
      assert live.current.sessions[i].sessionId == live.current.members[i].sessionId;
    }
    ScanMembersKeys(live.progress, live.current.members, round.members);
    WatermarkMarks(scanned, live.current.sessions, round.sessions);
    assert Over(scanned, round.sessions) == Marks(round.sessions);
  }

  lemma MessageKeepsInv(s: State, m: Message)
    requires Inv(s)
    ensures Inv(OnMessage(s, m))
  {
    hide Parse, Print, ScanMembers, Watermark, Marks;
    if m.Numbered? && s.live.Some? && CheckRound(s.live.value, m.round).Some? {
      AcceptedMarks(s.live.value, m.round);
      PrintIsCanonical(s.rounds);
    }
    if m.Opening? {
      assert Print(0) == "0" by {
        PrintOfParse("0");
        PrintIsCanonical(0);
        PrintIsCanonical(Parse("0"));
      }
    }
  }

  /** In every run: the marks are those of the snapshot on screen and the expected sequence
      number is the count of rounds accepted since it was opened. */
  lemma {:induction false} InvAlways(messages: seq<Message>)
    ensures Inv(Onwards(State(None, 0), messages))
  {
    if messages != [] {
      InvAlways(messages[..|messages| - 1]);
      MessageKeepsInv(Onwards(State(None, 0), messages[..|messages| - 1]), messages[|messages| - 1]);
    }
  }

  // ---------------------------------------------------------- what users see

  /** One accepted round, in any reachable state and for any Session in it. The cursor in its place
      moves forward or stays. The round's events for it, of all members that have it, are numbered
      from its marks without gap, repeat or swap, and its new cursor and revision cover them. And
      the marks of a Session are the cursor and the revision of the one on screen. */
  lemma AcceptedRound(messages: seq<Message>, round: Round, i: nat)
    requires var s := Onwards(State(None, 0), messages);
             s.live.Some? && CheckRound(s.live.value, round).Some? && i < |s.live.value.current.sessions|
    ensures var live := Onwards(State(None, 0), messages).live.value;
            var shown, id := live.current.sessions[i], live.current.sessions[i].sessionId;
            && ValidInitial(live.current) && i < |round.sessions| && |round.members| == |round.sessions|
            && round.sessions[i].sessionId == id
            && MatchesCounter(round.sessions[i].cursor)
            && Parse(shown.cursor) <= Parse(round.sessions[i].cursor)
            && MatchesCounter(CursorOf(live.progress, id))
            && var events := EventsOf(live.current.members, round.members, id);
               && (forall k :: 0 <= k < |events| ==> InOrder(live.progress, id, events, k))
               && Parse(CursorOf(live.progress, id)) + Contents(events) <= Parse(round.sessions[i].cursor)
               && RevisionOf(live.progress, id) + |events| - Contents(events) <= round.sessions[i].revision
               && (Newest(live.current.members, i) ==>
                     CursorOf(live.progress, id) == shown.cursor && RevisionOf(live.progress, id) == shown.revision)
  {
    hide Parse, Print, Scan, ScanMembers, CompareDecimal, MatchesPositive, MatchesCounter, Watermark, Marks, CursorOf, RevisionOf;
    InvAlways(messages);
    var live := Onwards(State(None, 0), messages).live.value;
    var scanned := ScanMembers(live.progress, live.current.members, round.members).value;
    WatermarkAt(scanned, live.current.sessions, round.sessions, i);
    SessionInRound(live, round, scanned, i);
  }

  /** The last of the Sessions with the id of Session `i`. */
  lemma LastNamed(sessions: seq<Facts>, i: nat) returns (j: nat)
    requires i < |sessions|
    ensures i <= j < |sessions| && sessions[j].sessionId == sessions[i].sessionId
    ensures forall k :: j < k < |sessions| ==> sessions[k].sessionId != sessions[i].sessionId
    decreases |sessions| - i
  {
    if k :| i < k < |sessions| && sessions[k].sessionId == sessions[i].sessionId {
      j := LastNamed(sessions, k);
    } else {
      j := i;
    }
  }

  lemma {:induction false} MarkOfLast(sessions: seq<Facts>, i: nat)
    requires i < |sessions| && forall j :: i < j < |sessions| ==> sessions[j].sessionId != sessions[i].sessionId
    ensures CursorOf(Marks(sessions), sessions[i].sessionId) == sessions[i].cursor
    ensures RevisionOf(Marks(sessions), sessions[i].sessionId) == sessions[i].revision
  {
    if i < |sessions| - 1 {
      MarkOfLast(sessions[..|sessions| - 1], i);
    }
  }

  lemma SessionInRound(live: Live, round: Round, scanned: Progress, i: nat)
    requires ValidInitial(live.current) && live.progress == Marks(live.current.sessions)
    requires CheckRound(live, round).Some? && i < |live.current.sessions|
    requires Some(scanned) == ScanMembers(live.progress, live.current.members, round.members)
    ensures var shown, id := live.current.sessions[i], live.current.sessions[i].sessionId;
            && i < |round.sessions| && |round.members| == |live.current.members|
            && MatchesCounter(CursorOf(live.progress, id))
            && var events := EventsOf(live.current.members, round.members, id);
               && (forall k :: 0 <= k < |events| ==> InOrder(live.progress, id, events, k))
               && Parse(CursorOf(live.progress, id)) + Contents(events) <= Parse(round.sessions[i].cursor)
               && RevisionOf(live.progress, id) + |events| - Contents(events) <= round.sessions[i].revision
               && (Newest(live.current.members, i) ==>
                     CursorOf(live.progress, id) == shown.cursor && RevisionOf(live.progress, id) == shown.revision)
  {
    hide Parse, Print, Scan, ScanMembers, CompareDecimal, Watermark, Marks, CursorOf, RevisionOf, InOrder;
    var c, id := live.current, live.current.sessions[i].sessionId;
    var last := LastNamed(c.sessions, i);
    MarkOfLast(c.sessions, last);
    var events := EventsOf(c.members, round.members, id);
    ScanMembersOf(live.progress, c.members, round.members, id);
    ScanIffInOrder(live.progress, id, events);
    ScanEffect(live.progress, id, events);
    PrintIsCanonical(Parse(CursorOf(live.progress, id)) + Contents(events));
    WatermarkAt(scanned, c.sessions, round.sessions, i);
    MarkOfNewest(c, i);
  }

  lemma MarkOfNewest(c: Initial, i: nat)
    requires ValidInitial(c) && i < |c.sessions|
    ensures Newest(c.members, i) ==>
              && CursorOf(Marks(c.sessions), c.sessions[i].sessionId) == c.sessions[i].cursor
              && RevisionOf(Marks(c.sessions), c.sessions[i].sessionId) == c.sessions[i].revision
  {
    hide Marks, CursorOf, RevisionOf, MatchesCounter, MatchesPositive;
    assert forall j :: 0 <= j < |c.sessions| ==> c.sessions[j].sessionId == c.members[j].sessionId;
    if Newest(c.members, i) {
      MarkOfLast(c.sessions, i);
    }
  }

  /** While no new snapshot opens, nothing on screen ever goes back, over any number of rounds
      accepted or refused. */
  lemma {:induction false} NeverGoesBack(s: State, messages: seq<Message>, i: nat)
    requires s.live.Some? && Shown(s) && i < |s.live.value.current.sessions|
    requires forall m :: m in messages ==> m.Numbered?
    ensures var t := Onwards(s, messages);
            && t.live.Some? && t.live.value.current == s.live.value.current.(sessions := t.live.value.current.sessions)
            && i < |t.live.value.current.sessions|
            && Parse(s.live.value.current.sessions[i].cursor) <= Parse(t.live.value.current.sessions[i].cursor)
  {
    hide Parse, Print, ScanMembers, Watermark, CompareDecimal, Marks;
    if messages != [] {
      var shorter, round := messages[..|messages| - 1], messages[|messages| - 1].round;
      NeverGoesBack(s, shorter, i);
      var live := Onwards(s, shorter).live.value;
      if CheckRound(live, round).Some? {
        var scanned := ScanMembers(live.progress, live.current.members, round.members).value;
        WatermarkAt(scanned, live.current.sessions, round.sessions, i);
      }
    }
  }

  /** A lost round is never papered over: until a snapshot opens again, every round that is not
      the very next one is refused and changes nothing. */
  lemma {:induction false} LostRoundIsFinal(s: State, messages: seq<Message>)
    requires Inv(s)
    requires forall m :: m in messages ==> m.Numbered? && m.round.sequence != Print(s.rounds + 1)
    ensures Onwards(s, messages) == s
  {
    hide ScanMembers, Watermark, Marks, Print, Parse;
    if messages != [] {
      LostRoundIsFinal(s, messages[..|messages| - 1]);
      PrintIsCanonical(s.rounds);
      assert messages[|messages| - 1] in messages;
      assert s.live.Some? ==> CheckRound(s.live.value, messages[|messages| - 1].round).None?;
    }
  }

  /** Nor does the revision of a Session on screen: of several members with one Session id, the last
      one's. */
  lemma {:induction false} RevisionsNeverGoBack(s: State, messages: seq<Message>, i: nat)
    requires Inv(s) && s.live.Some? && Newest(s.live.value.current.members, i)
    requires forall m :: m in messages ==> m.Numbered?
    ensures var t := Onwards(s, messages);
            && Inv(t) && t.live.Some? && t.live.value.current == s.live.value.current.(sessions := t.live.value.current.sessions)
            && i < |s.live.value.current.sessions| == |t.live.value.current.sessions|
            && s.live.value.current.sessions[i].revision <= t.live.value.current.sessions[i].revision
  {
    hide Parse, Print, Scan, ScanMembers, Watermark, CompareDecimal, Marks, MatchesPositive, MatchesCounter, EventsOf, Contents;
    if messages != [] {
      var shorter, round := messages[..|messages| - 1], messages[|messages| - 1].round;
      RevisionsNeverGoBack(s, shorter, i);
      MessageKeepsInv(Onwards(s, shorter), messages[|messages| - 1]);
      var live := Onwards(s, shorter).live.value;
      if CheckRound(live, round).Some? {
        SessionInRound(live, round, ScanMembers(live.progress, live.current.members, round.members).value, i);
      }
    }
  }

  /** An earlier member of the same Session can go back: it is held against the marks of the last. */
  lemma EarlierMemberGoesBack()
    ensures var members := [Member("a", "s"), Member("b", "s")];
            var opening := Initial(true, "1", "i", "m", members, [Facts("s", "0", 5, ""), Facts("s", "0", 3, "")]);
            var round := Round(true, "1", "i", "m", "1", [MemberEvents("a", "s", []), MemberEvents("b", "s", [])],
                               [Facts("s", "0", 3, ""), Facts("s", "0", 3, "")]);
            var s, t := Onwards(State(None, 0), [Opening(opening)]), Onwards(State(None, 0), [Opening(opening), Numbered(round)]);
            && s.live.Some? && s.live.value.current.sessions == [Facts("s", "0", 5, ""), Facts("s", "0", 3, "")]
            && t.live.Some? && t.live.value.current.sessions == [Facts("s", "0", 3, ""), Facts("s", "0", 3, "")]
  {
    var members := [Member("a", "s"), Member("b", "s")];
    var before, after := [Facts("s", "0", 5, ""), Facts("s", "0", 3, "")], [Facts("s", "0", 3, ""), Facts("s", "0", 3, "")];
    var opening := Initial(true, "1", "i", "m", members, before);
    var events := [MemberEvents("a", "s", []), MemberEvents("b", "s", [])];
    var round := Round(true, "1", "i", "m", "1", events, after);
    var p := Marks(before);
    OneAndNought();
    TwoMarks(before[0], before[1]);
    TwoSilent(p, members, events);
    StillThere(p, before, after);
    hide Marks, ScanMembers, Watermark, MatchesCounter, MatchesPositive, Parse, Print, CheckRound, Onwards;
    PassesCheck(opening, round);
    OpenedThenOneRound(opening, round);
  }

  lemma PassesCheck(opening: Initial, round: Round)
    requires ValidInitial(opening) && ValidInitial(opening.(sessions := round.sessions)) && MatchesCounter("0")
    requires round.wellFormed && round.epoch == opening.epoch && round.instance == opening.instance && round.mux == opening.mux
    requires MatchesPositive(round.sequence) && round.sequence == Print(Parse("0") + 1)
    requires |round.members| == |opening.members|
    requires ScanMembers(Marks(opening.sessions), opening.members, round.members) == Some(Marks(opening.sessions))
    requires Watermark(Marks(opening.sessions), opening.sessions, round.sessions).Some?
    ensures CheckRound(Live(opening, "0", Marks(opening.sessions)), round).Some?
  {
    hide Marks, ScanMembers, Watermark, Print;
  }

  lemma OpenedThenOneRound(opening: Initial, round: Round)
    requires ValidInitial(opening) && CheckRound(Live(opening, "0", Marks(opening.sessions)), round).Some?
    ensures var s, t := Onwards(State(None, 0), [Opening(opening)]), Onwards(State(None, 0), [Opening(opening), Numbered(round)]);
            && s.live.Some? && s.live.value.current == opening
            && t.live.Some? && t.live.value.current == opening.(sessions := round.sessions)
  {
    hide Marks, ScanMembers, Watermark, Print, Parse, ValidInitial;
    var start, open := State(None, 0), Opening(opening);
    assert [open][..0] == [] && [open, Numbered(round)][..1] == [open];
    assert Onwards(start, []) == start;
    assert Onwards(start, [open]) == State(Some(Live(opening, "0", Marks(opening.sessions))), 0);
  }

  lemma OneAndNought()
    ensures AllDigits("0") && MatchesCounter("0") && MatchesPositive("1") && Parse("0") == 0 && Print(Parse("0") + 1) == "1"
  {
    PrintIsCanonical(0);
    PrintIsCanonical(1);
    assert Print(0) == [DigitChar(0)] == "0" && Print(1) == [DigitChar(1)] == "1";
  }

  lemma TwoMarks(a: Facts, b: Facts)
    requires a.sessionId == b.sessionId
    ensures CursorOf(Marks([a, b]), a.sessionId) == b.cursor && RevisionOf(Marks([a, b]), a.sessionId) == b.revision
  {
    MarkOfLast([a, b], 1);
  }

  /** Two members without events leave every mark as it is. */
  lemma TwoSilent(p: Progress, expected: seq<Member>, members: seq<MemberEvents>)
    requires |expected| == |members| == 2
    requires forall i :: 0 <= i < 2 ==> members[i].memberId == expected[i].memberId
                                        && members[i].sessionId == expected[i].sessionId && members[i].events == []
    ensures ScanMembers(p, expected, members) == Some(p)
  {
    assert members[..1][..0] == [];
    assert ScanMembers(p, expected, []) == Some(p);
    assert ScanMembers(p, expected, members[..1]) == Some(p);
  }

  /** Two Sessions of one id pass when each has the marks of that id. */
  lemma StillThere(p: Progress, before: seq<Facts>, after: seq<Facts>)
    requires |before| == |after| == 2 && AllCounters(before) && AllCounters(after) && after[0] == after[1]
    requires before[0].cursor == before[1].cursor == after[0].cursor
    requires CursorOf(p, after[0].sessionId) == after[0].cursor && RevisionOf(p, after[0].sessionId) == after[0].revision
    ensures Watermark(p, before, after).Some?
  {
    hide Parse, MatchesPositive;
    var f := after[0];
    CompareDecimalIsNumeric(f.cursor, f.cursor);
    assert after[..1][..0] == [];
    assert Watermark(p, before, []) == Some(p);
    assert Watermark(p, before, after[..1]) == Some(Mark(p, f.sessionId, f.cursor, f.revision));
  }

  function Numbereds(rounds: seq<Round>): (messages: seq<Message>)
    ensures |messages| == |rounds| && forall j :: 0 <= j < |rounds| ==> messages[j] == Numbered(rounds[j])
  {
    seq(|rounds|, j requires 0 <= j < |rounds| => Numbered(rounds[j]))
  }

  lemma {:induction false} AtMostCounted(s: State, messages: seq<Message>)
    requires Inv(s) && forall m :: m in messages ==> m.Numbered?
    ensures Inv(Onwards(s, messages)) && Onwards(s, messages).rounds <= s.rounds + |messages|
  {
    hide CheckRound, Marks, Print, MatchesPositive;
    if messages != [] {
      AtMostCounted(s, messages[..|messages| - 1]);
      MessageKeepsInv(Onwards(s, messages[..|messages| - 1]), messages[|messages| - 1]);
    }
  }

  lemma {:induction false} OnwardsOnwards(s: State, first: seq<Message>, rest: seq<Message>)
    requires Shown(s)
    ensures Onwards(s, first + rest) == Onwards(Onwards(s, first), rest)
  {
    hide OnMessage;
    if rest == [] {
      assert first + rest == first;
    } else {
      assert (first + rest)[..|first + rest| - 1] == first + rest[..|rest| - 1];
      OnwardsOnwards(s, first, rest[..|rest| - 1]);
    }
  }

  /** The process numbers its rounds one after the other. If one of them never arrives, all that
      come after it change nothing, whatever they hold. */
  lemma AfterALostRound(s: State, rounds: seq<Round>, lost: nat)
    requires Inv(s) && lost < |rounds|
    requires forall j :: 0 <= j < |rounds| ==> rounds[j].sequence == Print(s.rounds + 1 + j)
    ensures Onwards(s, Numbereds(rounds[..lost]) + Numbereds(rounds[lost + 1..])) == Onwards(s, Numbereds(rounds[..lost]))
  {
    hide CheckRound, Print, Onwards, Marks, MatchesPositive;
    var arrived, late := Numbereds(rounds[..lost]), Numbereds(rounds[lost + 1..]);
    AtMostCounted(s, arrived);
    OnwardsOnwards(s, arrived, late);
    var t := Onwards(s, arrived);
    forall m | m in late
      ensures m.Numbered? && m.round.sequence != Print(t.rounds + 1)
    {
      var j :| 0 <= j < |late| && late[j] == m;
      assert m.round == rounds[lost + 1 + j];
      if m.round.sequence == Print(t.rounds + 1) {
        PrintInjective(s.rounds + 1 + (lost + 1 + j), t.rounds + 1);
      }
    }
    LostRoundIsFinal(t, late);
  }

  // ------------------------------------------------ exactly which rounds pass

  /** A round's events of one Session are numbered from its marks on without gap, repeat or swap. */
  predicate EventsInOrder(p: Progress, id: string, events: seq<LiveEvent>) {
    MatchesCounter(CursorOf(p, id)) && forall k :: 0 <= k < |events| ==> InOrder(p, id, events, k)
  }

  lemma {:induction false} EventsOfFront(expected: seq<Member>, members: seq<MemberEvents>, id: string)
    requires members != [] && |members| <= |expected|
    ensures var n := |members| - 1;
            EventsOf(expected, members, id)
            == EventsOf(expected, members[..n], id) + if expected[n].sessionId == id then members[n].events else []
  {
  }

  /** The members' lists pass exactly when they are the expected members' and, Session by Session,
      the events of all members together pass. */
  lemma {:induction false} ScanMembersIff(p: Progress, expected: seq<Member>, members: seq<MemberEvents>)
    requires |members| <= |expected|
    ensures ScanMembers(p, expected, members).Some? <==>
            && (forall i :: 0 <= i < |members| ==>
                              members[i].memberId == expected[i].memberId && members[i].sessionId == expected[i].sessionId)
            && (forall i :: 0 <= i < |members| ==>
                              Scan(p, expected[i].sessionId, EventsOf(expected, members, expected[i].sessionId)).Some?)
  {
    hide Scan, EventsOf;
    if members != [] {
      var n := |members| - 1;
      var front, last := members[..n], expected[n].sessionId;
      ScanMembersIff(p, expected, front);
      forall i | 0 <= i < |members|
        ensures var id := expected[i].sessionId;
                Scan(p, id, EventsOf(expected, members, id)).Some?
                ==> Scan(p, id, EventsOf(expected, front, id)).Some?
        ensures var id := expected[i].sessionId;
                id != last ==> EventsOf(expected, members, id) == EventsOf(expected, front, id)
      {
        var id := expected[i].sessionId;
        EventsOfFront(expected, members, id);
        ScanConcat(p, id, EventsOf(expected, front, id), members[n].events);
        assert EventsOf(expected, front, id) + [] == EventsOf(expected, front, id);
      }
      if ScanMembers(p, expected, front).Some? {
        var q := ScanMembers(p, expected, front).value;
        ScanMembersOf(p, expected, front, last);
        EventsOfFront(expected, members, last);
        ScanConcat(p, last, EventsOf(expected, front, last), members[n].events);
        ScanLocal(q, Scan(p, last, EventsOf(expected, front, last)).value, last, members[n].events);
      } else {
        assert forall i :: 0 <= i < n ==> front[i] == members[i];
      }
    }
  }

  /** Session `i` of a snapshot is behind neither the one in its place before, nor an earlier one of
      its id in the same snapshot, nor the marks of its id. */
  predicate CoveredBy(p: Progress, before: seq<Facts>, after: seq<Facts>, i: nat)
    requires i < |after| <= |before| && AllCounters(before) && AllCounters(after)
  {
    var id, cursor, revision := after[i].sessionId, Parse(after[i].cursor), after[i].revision;
    && Parse(before[i].cursor) <= cursor
    && (forall j :: 0 <= j < i && after[j].sessionId == id ==> Parse(after[j].cursor) <= cursor && after[j].revision <= revision)
    && MatchesCounter(CursorOf(p, id)) && Parse(CursorOf(p, id)) <= cursor && RevisionOf(p, id) <= revision
  }

  lemma {:induction false} MarkBefore(p: Progress, after: seq<Facts>, i: nat, l: nat)
    requires l < i < |after| && after[l].sessionId == after[i].sessionId
    requires forall j :: l < j < i ==> after[j].sessionId != after[i].sessionId
    ensures var marks, id := Over(p, after[..i]), after[i].sessionId;
            CursorOf(marks, id) == after[l].cursor && RevisionOf(marks, id) == after[l].revision
  {
    MarkOfLast(after[..i], l);
    MarkedIn(after[..i], l);
  }

  lemma {:induction false} MarkedIn(sessions: seq<Facts>, l: nat)
    requires l < |sessions|
    ensures sessions[l].sessionId in Marks(sessions).cursors && sessions[l].sessionId in Marks(sessions).revisions
  {
    if l < |sessions| - 1 {
      MarkedIn(sessions[..|sessions| - 1], l);
    }
  }

  /** The last entry before `i` with the id of entry `i`. */
  lemma LastBefore(after: seq<Facts>, i: nat, k: nat) returns (l: nat)
    requires k < i < |after| && after[k].sessionId == after[i].sessionId
    ensures k <= l < i && after[l].sessionId == after[i].sessionId
    ensures forall j :: l < j < i ==> after[j].sessionId != after[i].sessionId
    decreases i - k
  {
    if m :| k < m < i && after[m].sessionId == after[i].sessionId {
      l := LastBefore(after, i, m);
    } else {
      l := k;
    }
  }

  lemma EarlierIsCovered(p: Progress, before: seq<Facts>, after: seq<Facts>, i: nat, j: nat)
    requires j < i < |after| <= |before| && AllCounters(before) && AllCounters(after)
    requires after[j].sessionId == after[i].sessionId
    requires forall k :: 0 <= k < |after| ==> Ahead(p, before, after, k)
    ensures Parse(after[j].cursor) <= Parse(after[i].cursor) && after[j].revision <= after[i].revision
  {
    hide Parse, CursorOf, RevisionOf, Over, MatchesCounter;
    var l := LastBefore(after, i, j);
    MarkBefore(p, after, i, l);
    assert Ahead(p, before, after, i);
    if j < l {
      EarlierIsCovered(p, before, after, l, j);
    }
  }

  /** The same condition read off the marks one by one, and read off the snapshot. */
  lemma CoveredIff(p: Progress, before: seq<Facts>, after: seq<Facts>)
    requires |after| <= |before| && AllCounters(before) && AllCounters(after)
    ensures Watermark(p, before, after).Some? <==> forall i :: 0 <= i < |after| ==> CoveredBy(p, before, after, i)
  {
    hide Parse, CursorOf, RevisionOf, Over, Watermark, Ahead;
    WatermarkIff(p, before, after);
    if Watermark(p, before, after).Some? {
      forall i | 0 <= i < |after|
        ensures CoveredBy(p, before, after, i)
      {
        WatermarkAt(p, before, after, i);
        forall j | 0 <= j < i && after[j].sessionId == after[i].sessionId
          ensures Parse(after[j].cursor) <= Parse(after[i].cursor) && after[j].revision <= after[i].revision
        {
          EarlierIsCovered(p, before, after, i, j);
        }
      }
    }
    if forall i :: 0 <= i < |after| ==> CoveredBy(p, before, after, i) {
      forall i | 0 <= i < |after|
        ensures Ahead(p, before, after, i)
      {
        CoveredIsAhead(p, before, after, i);
      }
    }
  }

  lemma CoveredIsAhead(p: Progress, before: seq<Facts>, after: seq<Facts>, i: nat)
    requires i < |after| <= |before| && AllCounters(before) && AllCounters(after) && CoveredBy(p, before, after, i)
    ensures Ahead(p, before, after, i)
  {
    hide Parse, CursorOf, RevisionOf, Over, MatchesPositive;
    if k :| 0 <= k < i && after[k].sessionId == after[i].sessionId {
      var l := LastBefore(after, i, k);
      MarkBefore(p, after, i, l);
    } else {
      UnmarkedStays(p, after[..i], after[i].sessionId);
    }
  }

  /** What a round says of one of its Sessions: it is behind neither the one in its place on screen,
      nor an earlier one of its id in the round, nor the marks of its id counted on by the events. */
  predicate Covered(live: Live, round: Round, i: nat)
    requires ValidInitial(live.current) && ValidInitial(live.current.(sessions := round.sessions))
    requires |round.members| <= |live.current.members| && i < |round.sessions|
    requires MatchesCounter(CursorOf(live.progress, round.sessions[i].sessionId))
  {
    var after := round.sessions;
    var id, cursor, revision := after[i].sessionId, Parse(after[i].cursor), after[i].revision;
    var events := EventsOf(live.current.members, round.members, id);
    && Parse(live.current.sessions[i].cursor) <= cursor
    && (forall j :: 0 <= j < i && after[j].sessionId == id ==> Parse(after[j].cursor) <= cursor && after[j].revision <= revision)
    && Parse(CursorOf(live.progress, id)) + Contents(events) <= cursor
    && RevisionOf(live.progress, id) + |events| - Contents(events) <= revision
  }

  /** The whole of what a round must be to be accepted, while the marks are those on screen. */
  predicate Acceptable(live: Live, round: Round)
    requires ValidInitial(live.current) && MatchesCounter(live.sequence)
  {
    var c := live.current;
    && round.wellFormed
    && round.epoch == c.epoch && round.instance == c.instance && round.mux == c.mux
    && round.sequence == Print(Parse(live.sequence) + 1)
    && |round.members| == |c.members|
    && (forall i :: 0 <= i < |c.members| ==>
                      round.members[i].memberId == c.members[i].memberId && round.members[i].sessionId == c.members[i].sessionId)
    && (forall i :: 0 <= i < |c.members| ==>
                      EventsInOrder(live.progress, c.members[i].sessionId, EventsOf(c.members, round.members, c.members[i].sessionId)))
    && ValidInitial(c.(sessions := round.sessions))
    && (forall i :: 0 <= i < |round.sessions| ==>
                      MatchesCounter(CursorOf(live.progress, round.sessions[i].sessionId)) && Covered(live, round, i))
  }

  /** A round is accepted exactly when it is acceptable. */
  lemma AcceptedIff(live: Live, round: Round)
    requires ValidInitial(live.current) && live.progress == Marks(live.current.sessions) && MatchesCounter(live.sequence)
    ensures CheckRound(live, round).Some? <==> Acceptable(live, round)
  {
    hide Scan, ScanMembers, Watermark, Marks, EventsOf, CursorOf, RevisionOf, Covered, EventsInOrder, ValidInitial, Parse, Print;
    var c := live.current;
    PrintIsCanonical(Parse(live.sequence) + 1);
    if |round.members| == |c.members| {
      MembersPass(live, round);
      if ScanMembers(live.progress, c.members, round.members).Some? && ValidInitial(c.(sessions := round.sessions)) {
        SessionsPass(live, round, ScanMembers(live.progress, c.members, round.members).value);
      }
    }
  }

  /** Every Session on screen has readable marks. */
  lemma MarksAreCounters(c: Initial, i: nat)
    requires ValidInitial(c) && i < |c.members|
    ensures MatchesCounter(CursorOf(Marks(c.sessions), c.members[i].sessionId))
  {
    hide CursorOf, RevisionOf, Marks, MatchesCounter;
    var last := LastNamed(c.sessions, i);
    MarkOfLast(c.sessions, last);
    assert c.sessions[i].sessionId == c.members[i].sessionId;
  }

  lemma MembersPass(live: Live, round: Round)
    requires ValidInitial(live.current) && live.progress == Marks(live.current.sessions)
    requires |round.members| == |live.current.members|
    ensures var c := live.current;
            ScanMembers(live.progress, c.members, round.members).Some? <==>
            && (forall i :: 0 <= i < |c.members| ==>
                  round.members[i].memberId == c.members[i].memberId && round.members[i].sessionId == c.members[i].sessionId)
            && (forall i :: 0 <= i < |c.members| ==>
                  EventsInOrder(live.progress, c.members[i].sessionId, EventsOf(c.members, round.members, c.members[i].sessionId)))
  {
    hide Scan, Marks, EventsOf, CursorOf, RevisionOf, InOrder, Parse, ValidInitial, MatchesCounter, ScanMembers;
    var c := live.current;
    ScanMembersIff(live.progress, c.members, round.members);
    forall i | 0 <= i < |c.members|
      ensures var id := c.members[i].sessionId;
              Scan(live.progress, id, EventsOf(c.members, round.members, id)).Some?
              <==> EventsInOrder(live.progress, id, EventsOf(c.members, round.members, id))
    {
      MarksAreCounters(c, i);
      ScanIffInOrder(live.progress, c.members[i].sessionId, EventsOf(c.members, round.members, c.members[i].sessionId));
    }
  }

  lemma SessionsPass(live: Live, round: Round, scanned: Progress)
    requires ValidInitial(live.current) && live.progress == Marks(live.current.sessions)
    requires |round.members| == |live.current.members| && ValidInitial(live.current.(sessions := round.sessions))
    requires ScanMembers(live.progress, live.current.members, round.members) == Some(scanned)
    ensures Watermark(scanned, live.current.sessions, round.sessions).Some? <==>
            forall i :: 0 <= i < |round.sessions| ==>
                          MatchesCounter(CursorOf(live.progress, round.sessions[i].sessionId)) && Covered(live, round, i)
  {
    hide Scan, ScanMembers, Marks, EventsOf, CursorOf, RevisionOf, Parse, Print, Watermark;
    var c := live.current;
    CoveredIff(scanned, c.sessions, round.sessions);
    forall i | 0 <= i < |round.sessions|
      ensures MatchesCounter(CursorOf(live.progress, round.sessions[i].sessionId))
      ensures CoveredBy(scanned, c.sessions, round.sessions, i) == Covered(live, round, i)
    {
      assert round.sessions[i].sessionId == c.members[i].sessionId;
      MarksAreCounters(c, i);
      var id := round.sessions[i].sessionId;
      var events := EventsOf(c.members, round.members, id);
      ScanMembersOf(live.progress, c.members, round.members, id);
      ScanEffect(live.progress, id, events);
      PrintIsCanonical(Parse(CursorOf(live.progress, id)) + Contents(events));
    }
  }

  /** Over any runs, rounds of another connection epoch, instance or space change nothing. */
  lemma {:induction false} ForeignRoundsAreRefused(s: State, messages: seq<Message>)
    requires Shown(s) && s.live.Some?
    requires forall m :: m in messages ==>
               && m.Numbered?
               && (m.round.epoch != s.live.value.current.epoch || m.round.instance != s.live.value.current.instance
                   || m.round.mux != s.live.value.current.mux)
    ensures Onwards(s, messages) == s
  {
    hide ScanMembers, Watermark, Marks, Print, Parse;
    if messages != [] {
      ForeignRoundsAreRefused(s, messages[..|messages| - 1]);
      assert messages[|messages| - 1] in messages;
    }
  }

  /** Exactly which openings are shown: of a positive epoch, with at most 128 members, and for each its
      Session with a readable cursor and a safe revision. Any other changes nothing. */
  lemma OpeningIff(s: State, v: Initial)
    requires Shown(s)
    ensures OnMessage(s, Opening(v)) ==
            if v.wellFormed && MatchesPositive(v.epoch) && |v.members| == |v.sessions| && |v.members| <= 128
               && forall i :: 0 <= i < |v.members| ==>
                                && v.sessions[i].sessionId == v.members[i].sessionId && MatchesCounter(v.sessions[i].cursor)
                                && 0 <= v.sessions[i].revision <= 9007199254740991
            then State(Some(Live(v, "0", Marks(v.sessions))), 0)
            else s
  {
    hide Marks, MatchesPositive, MatchesCounter;
  }
}
