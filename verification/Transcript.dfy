/**
 Rendering the transcript through a per-record line cache
 (examples/tui/29_composer_bottom_frame.py). How one record is laid out is left open: it is
 any function of the record and the width.
 */
module Transcript {
  import opened Options
  import opened Composer

  type Layout = (Record, nat) -> seq<string>
  type Cache = map<(Record, nat), seq<string>>

  const REGION_LIMIT: nat := 1000000

  /** The records shown: the committed ones, then the draft as an unstable message. */
  function Shown(records: seq<Record>, draft: Option<string>): seq<Record> {
    records + if draft.Some? then [AssistantMessage(draft.value, false)] else []
  }

  /** Reference: the layouts of all records, with one blank row between neighbours. */
  function Rows(layout: Layout, shown: seq<Record>, width: nat): seq<string> {
    if shown == [] then []
    else
      Rows(layout, shown[..|shown| - 1], width)
      + (if |shown| == 1 then [] else [""])
      + layout(shown[|shown| - 1], width)
  }

  /** Python's `rows[-n:]`, where `n == 0` means all of them. */
  function LastRows(rows: seq<string>, n: nat): seq<string> {
    if n == 0 || n >= |rows| then rows else rows[|rows| - n..]
  }

  predicate IsStreamingDraft(record: Record) {
    record.AssistantMessage? && !record.stable
  }

  /** A cache holds what laying out its keys would give, and no streaming draft. */
  ghost predicate Sound(layout: Layout, cache: Cache) {
    forall key :: key in cache ==> cache[key] == layout(key.0, key.1) && !IsStreamingDraft(key.0)
  }

  /** What one render may add to the cache. */
  function Remembered(layout: Layout, cache: Cache, shown: seq<Record>, width: nat): Cache {
    if shown == [] then cache
    else
      var before := Remembered(layout, cache, shown[..|shown| - 1], width);
      var record := shown[|shown| - 1];
      if IsStreamingDraft(record) || (record, width) in before then before
      else before[(record, width) := layout(record, width)]
  }

  class TranscriptView {
    const layout: Layout
    var cache: Cache

    ghost predicate Valid()
      reads this
    {
      Sound(layout, cache)
    }

    constructor (layout: Layout)
      ensures Valid() && this.layout == layout && cache == map[]
    {
      this.layout := layout;
      cache := map[];
    }

    /** `_cached_render_record`. */
    method RenderRecord(record: Record, width: nat) returns (lines: seq<string>)
      requires Valid()
      modifies this
      ensures Valid()
      ensures lines == layout(record, width)
      ensures cache == Remembered(layout, old(cache), [record], width)
    {
      assert [record][..0] == [];
      if IsStreamingDraft(record) {
        return layout(record, width);
      }
      if (record, width) in cache {
        return cache[(record, width)];
      }
      lines := layout(record, width);
      cache := cache[(record, width) := lines];
    }

    /** `_render_transcript`: a blank row after every record, the last one taken off again. */
    method RenderTranscript(records: seq<Record>, draft: Option<string>, width: nat, maxHeight: nat)
      returns (rows: seq<string>)
      requires Valid()
      modifies this
      ensures Valid()
      ensures rows == LastRows(Rows(layout, Shown(records, draft), width), maxHeight)
      ensures maxHeight > 0 ==> NewestRows(Rows(layout, Shown(records, draft), width), rows, maxHeight)
      ensures cache == Remembered(layout, old(cache), Shown(records, draft), width)
    {
      var shown := Shown(records, draft);
      rows := [];
      for i := 0 to |shown|
        invariant Valid()
        invariant rows == if i == 0 then [] else Rows(layout, shown[..i], width) + [""]
        invariant cache == Remembered(layout, old(cache), shown[..i], width)
      {
        assert shown[..i + 1][..i] == shown[..i] && [shown[i]][..0] == [];
        var lines := RenderRecord(shown[i], width);
        rows := rows + lines;
        rows := rows + [""];
      }
      assert shown[..|shown|] == shown;
      if rows != [] && rows[|rows| - 1] == "" {
        rows := rows[..|rows| - 1];
      }
      rows := LastRows(rows, maxHeight);
      if maxHeight > 0 {
        LastAreNewest(Rows(layout, shown, width), maxHeight);
      }
    }

    /** `_TranscriptRegion.render`, before each line is fitted to the width. */
    method RenderRegion(records: seq<Record>, draft: Option<string>, width: nat, maxHeight: nat)
      returns (rows: seq<string>)
      requires Valid() && maxHeight > 0
      modifies this
      ensures Valid()
      ensures rows == LastRows(Rows(layout, Shown(records, draft), width),
                               if maxHeight < REGION_LIMIT then maxHeight else REGION_LIMIT)
      ensures NewestRows(Rows(layout, Shown(records, draft), width), rows,
                         if maxHeight < 1000000 then maxHeight else 1000000)
    {
      rows := RenderTranscript(records, draft, width, REGION_LIMIT);
      LastOfLast(Rows(layout, Shown(records, draft), width), REGION_LIMIT, maxHeight);
      rows := LastRows(rows, maxHeight);
      LastAreNewest(Rows(layout, Shown(records, draft), width), if maxHeight < REGION_LIMIT then maxHeight else REGION_LIMIT);
    }
  }

  /** `rows` is the end of `all`: as much of it as the height takes. */
  predicate NewestRows(all: seq<string>, rows: seq<string>, height: nat) {
    && |rows| == (if height < |all| then height else |all|)
    && all == all[..|all| - |rows|] + rows
  }

  lemma LastAreNewest(all: seq<string>, height: nat)
    requires height > 0
    ensures NewestRows(all, LastRows(all, height), height)
  {
  }

  /** Taking the last `a` rows and then the last `b` is one take of the smaller, unless `b` is
      zero while rows are cut: a slice `[-0:]` keeps everything. Heights are checked to be
      positive, so the region never meets the exception. */
  lemma LastOfLast(rows: seq<string>, a: nat, b: nat)
    requires a > 0
    ensures LastRows(LastRows(rows, a), b) == LastRows(rows, if b < a then b else a) <==> b > 0 || |rows| <= a
  {
    if b == 0 && a < |rows| {
      assert |LastRows(rows, a)| == a;
    }
  }

  // ------------------------------------------------------- whole sequences

  /** One frame: the application's records, draft, width and height at that moment. */
  datatype Frame = Frame(records: seq<Record>, draft: Option<string>, width: nat, height: nat)

  function Cached(layout: Layout, cache: Cache, record: Record, width: nat): seq<string> {
    if !IsStreamingDraft(record) && (record, width) in cache then cache[(record, width)] else layout(record, width)
  }

  /** The rows a frame shows when every stable record is looked up in the cache first. */
  function CachedRows(layout: Layout, cache: Cache, shown: seq<Record>, width: nat): seq<string> {
    if shown == [] then []
    else
      CachedRows(layout, cache, shown[..|shown| - 1], width)
      + (if |shown| == 1 then [] else [""])
      + Cached(layout, Remembered(layout, cache, shown[..|shown| - 1], width), shown[|shown| - 1], width)
  }

  /** The cache left behind by a sequence of frames, starting empty. */
  function After(layout: Layout, frames: seq<Frame>): Cache {
    if frames == [] then map[]
    else
      var f := frames[|frames| - 1];
      Remembered(layout, After(layout, frames[..|frames| - 1]), Shown(f.records, f.draft), f.width)
  }

  lemma {:induction false} RememberedIsSound(layout: Layout, cache: Cache, shown: seq<Record>, width: nat)
    requires Sound(layout, cache)
    ensures Sound(layout, Remembered(layout, cache, shown, width))
  {
    if shown != [] {
      RememberedIsSound(layout, cache, shown[..|shown| - 1], width);
    }
  }

  lemma {:induction false} CachedIsUncached(layout: Layout, cache: Cache, shown: seq<Record>, width: nat)
    requires Sound(layout, cache)
    ensures CachedRows(layout, cache, shown, width) == Rows(layout, shown, width)
  {
    if shown != [] {
      CachedIsUncached(layout, cache, shown[..|shown| - 1], width);
      RememberedIsSound(layout, cache, shown[..|shown| - 1], width);
    }
  }

  lemma {:induction false} AfterIsSound(layout: Layout, frames: seq<Frame>)
    ensures Sound(layout, After(layout, frames))
  {
    if frames != [] {
      var f := frames[|frames| - 1];
      AfterIsSound(layout, frames[..|frames| - 1]);
      RememberedIsSound(layout, After(layout, frames[..|frames| - 1]), Shown(f.records, f.draft), f.width);
    }
  }

  /** Whatever frames came before, with whatever records appended, overwritten in place or
      dropped, drafts changed and widths changed in between: the cache never shows. */
  lemma CacheNeverShows(layout: Layout, frames: seq<Frame>, now: Frame)
    ensures var shown := now.records + (if now.draft.Some? then [AssistantMessage(now.draft.value, false)] else []);
            && Shown(now.records, now.draft) == shown
            && CachedRows(layout, After(layout, frames), shown, now.width) == Rows(layout, shown, now.width)
  {
    AfterIsSound(layout, frames);
    CachedIsUncached(layout, After(layout, frames), Shown(now.records, now.draft), now.width);
  }

  lemma {:induction false} RememberedGrows(layout: Layout, cache: Cache, shown: seq<Record>, width: nat)
    ensures forall key :: key in cache ==> key in Remembered(layout, cache, shown, width)
    ensures forall i :: 0 <= i < |shown| && !IsStreamingDraft(shown[i]) ==> (shown[i], width) in Remembered(layout, cache, shown, width)
  {
    if shown != [] {
      RememberedGrows(layout, cache, shown[..|shown| - 1], width);
    }
  }

  /** Every committed record of every frame so far is in the cache at that frame's width, and no
      streaming draft is: nothing is laid out twice but drafts. */
  lemma {:induction false} CacheRemembers(layout: Layout, frames: seq<Frame>, k: nat, record: Record)
    requires k < |frames| && record in Shown(frames[k].records, frames[k].draft)
    ensures (record, frames[k].width) in After(layout, frames) <==> !record.AssistantMessage? || record.stable
  {
    hide Remembered, Shown;
    var n := |frames| - 1;
    var shown := Shown(frames[n].records, frames[n].draft);
    AfterIsSound(layout, frames);
    RememberedGrows(layout, After(layout, frames[..n]), shown, frames[n].width);
    if k < n && !IsStreamingDraft(record) {
      CacheRemembers(layout, frames[..n], k, record);
    }
  }
}
