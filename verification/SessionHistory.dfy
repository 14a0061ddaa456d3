/**
 Back and forward through selected Sessions (gui/src/useSessionHistory.ts): a list of at most
 100 entries and the index of the current one.
 */
module SessionHistory {
  import opened Options

  datatype History = History(owner: string, ids: seq<string>, index: int)

  const HISTORY_LIMIT: nat := 100

  datatype Direction = Back | Forward

  /** A selection JavaScript takes as one: not null and not the empty string. */
  predicate IsSelection(selected: Option<string>) {
    selected.Some? && selected.value != ""
  }

  /** `ids.slice(-limit)` for a positive limit. */
  function LastIds(ids: seq<string>, limit: nat): (r: seq<string>)
    ensures |ids| <= limit ==> r == ids
    ensures |ids| > limit ==> |r| == limit && r == ids[|ids| - limit..]
  {
    if |ids| <= limit then ids else ids[|ids| - limit..]
  }

  /** The entries up to and including the current one, then the new one. */
  function Pushed(ids: seq<string>, index: int, selected: string): seq<string>
    requires -1 <= index < |ids|
  {
    ids[..index + 1] + [selected]
  }

  /** The history update after a render that shows `selected` to `owner`. */
  function Observe(h: History, owner: string, selected: Option<string>): History
    requires -1 <= h.index < |h.ids|
  {
    if h.owner != owner then
      if IsSelection(selected) then History(owner, [selected.value], 0) else History(owner, [], -1)
    else if !IsSelection(selected) || (h.index >= 0 && h.ids[h.index] == selected.value) then h
    else
      var ids := LastIds(Pushed(h.ids, h.index, selected.value), HISTORY_LIMIT);
      History(owner, ids, |ids| - 1)
  }

  function Delta(d: Direction): int {
    if d.Back? then -1 else 1
  }

  /** The first available entry from `i` on, walking in one direction, or -1. */
  function Scan(ids: seq<string>, available: set<string>, i: int, d: Direction): int
    decreases if d.Back? then i + 1 else |ids| - i
  {
    if !(0 <= i < |ids|) then -1
    else if ids[i] in available then i
    else Scan(ids, available, i + Delta(d), d)
  }

  function Target(h: History, owner: string, available: set<string>, d: Direction): int {
    if h.owner != owner then -1 else Scan(h.ids, available, h.index + Delta(d), d)
  }

  /** `target`: the scan as the hook runs it. */
  method FindTarget(h: History, owner: string, available: set<string>, d: Direction) returns (index: int)
    requires -1 <= h.index < |h.ids|
    ensures index == Target(h, owner, available, d)
  {
    if h.owner != owner {
      return -1;
    }
    index := h.index + Delta(d);
    while 0 <= index < |h.ids|
      invariant Target(h, owner, available, d) == Scan(h.ids, available, index, d)
      decreases if d.Back? then index + 1 else |h.ids| - index
    {
      if h.ids[index] in available {
        return;
      }
      index := index + Delta(d);
    }
    index := -1;
  }

  function Navigate(h: History, index: int): History {
    if index < 0 then h else h.(index := index)
  }

  // ------------------------------------------------------------- navigation

  predicate InRange(h: History) {
    && -1 <= h.index < |h.ids|
    && (h.ids == [] <==> h.index == -1)
  }

  /** Entry `j` lies on the given side of the current one. */
  predicate OnSide(h: History, d: Direction, j: int) {
    0 <= j < |h.ids| && if d.Back? then j < h.index else h.index < j
  }

  predicate Between(i: int, j: int, k: int) {
    i < j < k || k < j < i
  }

  lemma {:induction false} ScanIsNearest(ids: seq<string>, available: set<string>, i: int, d: Direction)
    requires if d.Back? then i < |ids| else 0 <= i
    ensures var r := Scan(ids, available, i, d);
            if r == -1
            then forall j :: 0 <= j < |ids| && (if d.Back? then j <= i else i <= j) ==> ids[j] !in available
            else && 0 <= r < |ids| && ids[r] in available && (if d.Back? then r <= i else i <= r)
                 && forall j :: Between(i + -Delta(d), j, r) ==> ids[j] !in available
    decreases if d.Back? then i + 1 else |ids| - i
  {
    if 0 <= i < |ids| && ids[i] !in available {
      ScanIsNearest(ids, available, i + Delta(d), d);
    }
  }

  /** Back and forward land on the nearest still-available entry of their side, or are disabled
      exactly when that side holds none. */
  lemma TargetIsNearest(h: History, owner: string, available: set<string>, d: Direction)
    requires InRange(h)
    ensures var r := Target(h, owner, available, d);
            && (r == -1 <==> h.owner != owner || forall j :: OnSide(h, d, j) ==> h.ids[j] !in available)
            && (r != -1 ==>
                  && OnSide(h, d, r) && h.ids[r] in available
                  && forall j :: Between(h.index, j, r) ==> 0 <= j < |h.ids| && h.ids[j] !in available)
  {
    if h.owner == owner {
      ScanIsNearest(h.ids, available, h.index + Delta(d), d);
    }
  }

  /** Going back and then forward returns to the same entry exactly when its Session is still
      available; the selection that comes back in between cuts nothing off. */
  lemma BackThenForward(h: History, owner: string, available: set<string>)
    requires InRange(h) && Target(h, owner, available, Back) >= 0
    ensures var b := Target(h, owner, available, Back);
            var there := Navigate(h, b);
            && 0 <= b < h.index
            && Observe(there, owner, Some(h.ids[b])) == there
            && (Target(there, owner, available, Forward) == h.index <==> h.ids[h.index] in available)
            && (h.ids[h.index] in available ==> Navigate(there, Target(there, owner, available, Forward)) == h)
  {
    TargetIsNearest(h, owner, available, Back);
    var b := Target(h, owner, available, Back);
    var there := Navigate(h, b);
    TargetIsNearest(there, owner, available, Forward);
    var f := Target(there, owner, available, Forward);
    if h.ids[h.index] in available {
      assert OnSide(there, Forward, h.index);
      assert !Between(b, h.index, f);
      assert !Between(h.index, f, b);
    }
  }

  // -------------------------------------- the capped list refines the full one

  datatype Event =
    | Shown(owner: string, selected: Option<string>)
    | Go(owner: string, available: set<string>, direction: Direction)

  /** The same history with no limit. */
  function ObserveFull(h: History, owner: string, selected: Option<string>): History
    requires -1 <= h.index < |h.ids|
  {
    if h.owner != owner then
      if IsSelection(selected) then History(owner, [selected.value], 0) else History(owner, [], -1)
    else if !IsSelection(selected) || (h.index >= 0 && h.ids[h.index] == selected.value) then h
    else History(owner, Pushed(h.ids, h.index, selected.value), h.index + 1)
  }

  /** The hook's history beside an unlimited one that is shown the same selections and follows
      the same navigations. */
  datatype Pair = Pair(capped: History, full: History)

  predicate PairInRange(p: Pair) {
    InRange(p.capped) && InRange(p.full) && |p.capped.ids| <= |p.full.ids|
  }

  function Dropped(p: Pair): int {
    |p.full.ids| - |p.capped.ids|
  }

  function Next(p: Pair, e: Event): Pair
    requires PairInRange(p)
  {
    match e
    case Shown(owner, selected) => Pair(Observe(p.capped, owner, selected), ObserveFull(p.full, owner, selected))
    case Go(owner, available, d) =>
      var i := Target(p.capped, owner, available, d);
      Pair(Navigate(p.capped, i), if i < 0 then p.full else Navigate(p.full, i + Dropped(p)))
  }

  /** No two neighbours are equal. */
  predicate NoRepeats(ids: seq<string>) {
    forall i :: 0 <= i < |ids| - 1 ==> ids[i] != ids[i + 1]
  }

  predicate Refines(p: Pair) {
    && PairInRange(p)
    && p.capped.owner == p.full.owner
    && p.capped.ids == p.full.ids[Dropped(p)..]
    && p.capped.index == p.full.index - (if p.full.ids == [] then 0 else Dropped(p))
    && |p.capped.ids| <= 100
    && (p.full.ids != [] ==> p.capped.ids != [])
    && NoRepeats(p.full.ids)
    && (forall i :: 0 <= i < |p.full.ids| ==> p.full.ids[i] != "")
  }

  lemma SuffixGrows(full: seq<string>, d: nat, i: int, selected: string)
    requires d <= |full| && d - 1 <= i < |full|
    ensures var grown := Pushed(full, i, selected);
            var ids := LastIds(Pushed(full[d..], i - d, selected), HISTORY_LIMIT);
            && 0 < |ids| <= HISTORY_LIMIT && |ids| <= |grown| == i + 2
            && ids == grown[|grown| - |ids|..]
  {
    assert Pushed(full[d..], i - d, selected) == Pushed(full, i, selected)[d..];
  }

  lemma PushKeepsNoRepeats(ids: seq<string>, i: int, selected: string)
    requires -1 <= i < |ids| && NoRepeats(ids) && (i >= 0 ==> ids[i] != selected)
    requires forall k :: 0 <= k < |ids| ==> ids[k] != ""
    requires selected != ""
    ensures NoRepeats(Pushed(ids, i, selected))
    ensures var pushed := Pushed(ids, i, selected);
            forall k :: 0 <= k < |pushed| ==> pushed[k] != ""
  {
  }

  lemma ShownRefines(p: Pair, owner: string, selected: Option<string>)
    requires Refines(p)
    ensures Refines(Next(p, Shown(owner, selected)))
  {
    if p.capped.owner == owner && IsSelection(selected) {
      assert p.full.ids != [] ==> p.capped.ids[p.capped.index] == p.full.ids[p.full.index];
      if p.full.ids == [] || p.full.ids[p.full.index] != selected.value {
        PushRefines(p, owner, selected);
      }
    }
  }

  lemma PushRefines(p: Pair, owner: string, selected: Option<string>)
    requires Refines(p) && p.capped.owner == owner && IsSelection(selected)
    requires p.full.ids == [] || p.full.ids[p.full.index] != selected.value
    ensures Refines(Next(p, Shown(owner, selected)))
  {
    hide LastIds, NoRepeats, Pushed;
    var d, q := Dropped(p), Next(p, Shown(owner, selected));
    assert p.capped.index == p.full.index - d;
    SuffixGrows(p.full.ids, d, p.full.index, selected.value);
    assert q.full.ids == Pushed(p.full.ids, p.full.index, selected.value);
    assert q.capped.ids == q.full.ids[|q.full.ids| - |q.capped.ids|..];
    assert PairInRange(q);
    PushKeepsNoRepeats(p.full.ids, p.full.index, selected.value);
  }

  lemma GoRefines(p: Pair, owner: string, available: set<string>, d: Direction)
    requires Refines(p)
    ensures Refines(Next(p, Go(owner, available, d)))
  {
    TargetIsNearest(p.capped, owner, available, d);
  }

  lemma StepRefines(p: Pair, e: Event)
    requires Refines(p)
    ensures Refines(Next(p, e))
  {
    match e
    case Shown(owner, selected) => ShownRefines(p, owner, selected);
    case Go(owner, available, d) => GoRefines(p, owner, available, d);
  }

  ghost predicate Reaches(owner: string, events: seq<Event>, p: Pair) {
    if events == [] then p == Pair(History(owner, [], -1), History(owner, [], -1))
    else exists q :: Reaches(owner, events[..|events| - 1], q) && PairInRange(q) && p == Next(q, events[|events| - 1])
  }

  /** Over every sequence of selections and navigations the hook's list is a suffix of the list
      an unlimited history would hold, with its index on the same entry; it never exceeds 100
      entries, its index stays in range and no two neighbours are equal. */
  lemma {:induction false} CappedRefinesFull(owner: string, events: seq<Event>, p: Pair)
    requires Reaches(owner, events, p)
    ensures Refines(p)
    ensures NoRepeats(p.capped.ids)
  {
    hide Next;
    if events != [] {
      var q :| Reaches(owner, events[..|events| - 1], q) && PairInRange(q) && p == Next(q, events[|events| - 1]);
      CappedRefinesFull(owner, events[..|events| - 1], q);
      StepRefines(q, events[|events| - 1]);
    }
    var d := Dropped(p);
    forall i | 0 <= i < |p.capped.ids| - 1
      ensures p.capped.ids[i] != p.capped.ids[i + 1]
    {
      assert p.full.ids[d + i] != p.full.ids[d + i + 1];
    }
  }

  /** Where the hook finds a target, the unlimited history finds the same entry; going forward
      they always agree, so the limit can only disable going back. */
  lemma SameTargets(owner: string, events: seq<Event>, p: Pair, available: set<string>, d: Direction)
    requires Reaches(owner, events, p)
    ensures var c, f := Target(p.capped, p.capped.owner, available, d), Target(p.full, p.full.owner, available, d);
            && (c >= 0 ==> f == c + Dropped(p))
            && (d.Forward? ==> (c == -1 <==> f == -1))
            && (c == -1 && f >= 0 ==> d.Back? && f < Dropped(p))
  {
    hide Reaches, Scan;
    CappedRefinesFull(owner, events, p);
    var n := Dropped(p);
    TargetIsNearest(p.capped, p.capped.owner, available, d);
    TargetIsNearest(p.full, p.full.owner, available, d);
    var c, f := Target(p.capped, p.capped.owner, available, d), Target(p.full, p.full.owner, available, d);
    assert forall j :: 0 <= j < |p.capped.ids| ==> p.capped.ids[j] == p.full.ids[j + n];
    if c >= 0 {
      assert OnSide(p.full, d, c + n);
      assert !Between(p.full.index, c + n, f);
      assert Between(p.full.index, f, c + n) <==> Between(p.capped.index, f - n, c);
    } else {
      assert f >= n ==> OnSide(p.capped, d, f - n);
    }
  }

  /** How many renders of a run showed a selection. */
  function Selections(events: seq<Event>): nat {
    if events == [] then 0
    else
      var last := events[|events| - 1];
      Selections(events[..|events| - 1]) + if last.Shown? && IsSelection(last.selected) then 1 else 0
  }

  /** In a run that shows at most 100 selections the limit is never felt. */
  lemma {:induction false} WithinTheLimit(owner: string, events: seq<Event>, p: Pair)
    requires Reaches(owner, events, p) && Selections(events) <= 100
    ensures p.capped == p.full && |p.full.ids| <= Selections(events)
  {
    hide Next;
    if events != [] {
      var e := events[|events| - 1];
      var q :| Reaches(owner, events[..|events| - 1], q) && PairInRange(q) && p == Next(q, e);
      WithinTheLimit(owner, events[..|events| - 1], q);
      OneMoreSelection(q, e);
    }
  }

  lemma OneMoreSelection(q: Pair, e: Event)
    requires PairInRange(q) && q.capped == q.full
    requires |q.full.ids| + (if e.Shown? && IsSelection(e.selected) then 1 else 0) <= 100
    ensures Next(q, e).capped == Next(q, e).full
    ensures |Next(q, e).full.ids| <= |q.full.ids| + if e.Shown? && IsSelection(e.selected) then 1 else 0
  {
    if e.Go? {
      TargetIsNearest(q.capped, e.owner, e.available, e.direction);
    }
  }

  /** In every run an entry is dropped only when a selection would make the list longer than 100,
      and one at a time. */
  lemma DroppedAtTheLimit(owner: string, events: seq<Event>, p: Pair, e: Event)
    requires Reaches(owner, events, p)
    requires PairInRange(p) && Dropped(Next(p, e)) > Dropped(p)
    ensures |p.capped.ids| == 100 && |Next(p, e).capped.ids| == 100 && Dropped(Next(p, e)) == Dropped(p) + 1
  {
    hide Reaches, NoRepeats, Next;
    CappedRefinesFull(owner, events, p);
    match e
    case Shown(o, selected) => ShownDrops(p, o, selected);
    case Go(o, available, d) => GoDropsNothing(p, o, available, d);
  }

  lemma GoDropsNothing(p: Pair, owner: string, available: set<string>, d: Direction)
    requires PairInRange(p)
    ensures var q := Next(p, Go(owner, available, d));
            |q.full.ids| == |p.full.ids| && |q.capped.ids| == |p.capped.ids|
  {
    hide Target;
  }

  lemma ShownDrops(p: Pair, owner: string, selected: Option<string>)
    requires Refines(p)
    ensures var q := Next(p, Shown(owner, selected));
            Dropped(q) > Dropped(p) ==> |p.capped.ids| == 100 && |q.capped.ids| == 100 && Dropped(q) == Dropped(p) + 1
  {
    hide NoRepeats;
  }
}
