/**
 Weekly usage accounting of examples/coding/23_kimi_weekly_usage_ledger.py. A time is a calendar
 day, a time of day and a fixed UTC offset; two times are equal when their UTC instants are.
 Day 0 is Monday, 1 January of year 1, so the weekday is the day modulo 7.
 */
module WeeklyLedger {
  import opened Options

  const SECOND: int := 1_000_000
  const HOUR: int := 3600 * SECOND
  const DAY: int := 24 * HOUR
  const WEEK: int := 7 * DAY

  datatype Time = Time(day: int, micros: int, offset: int)

  /** The offsets Python admits are shorter than a day. */
  predicate WellFormed(t: Time) {
    0 <= t.micros < DAY && -DAY < t.offset < DAY
  }

  /** The wall clock, in microseconds since Monday of week 0. */
  function Wall(t: Time): int {
    t.day * DAY + t.micros
  }

  function Instant(t: Time): int {
    Wall(t) - t.offset
  }

  /** `_week_start`: midnight of the same day, then back by the weekday. */
  function WeekStart(t: Time): Time {
    var base := t.(micros := 0);
    base.(day := base.day - t.day % 7)
  }

  /** `_next_reset_hours`: whole hours left until the next Monday. */
  function NextResetHours(t: Time): int {
    var current := WeekStart(t).(day := WeekStart(t).day + 7);
    (Instant(current) - Instant(t)) / HOUR
  }

  /** The two-step week start is the wall clock rounded down to a whole week; it is not after the
      time, less than a week before it, and its own week start. */
  lemma WeekStartRounds(t: Time)
    requires WellFormed(t)
    ensures Wall(WeekStart(t)) == Wall(t) - Wall(t) % WEEK
    ensures Instant(WeekStart(t)) <= Instant(t) < Instant(WeekStart(t)) + WEEK
    ensures WeekStart(WeekStart(t)) == WeekStart(t)
  {
    var w, d := t.day / 7, t.day % 7;
    assert t.day == 7 * w + d;
    var rest := d * DAY + t.micros;
    assert Wall(t) == w * WEEK + rest;
    assert (7 * w) / 7 == w;
  }

  /** The countdown lies in 0..168, is 168 only at the week start itself, and counting it down
      stops at the next Monday or less than an hour short of it. */
  lemma CountdownNeverOvershoots(t: Time)
    requires WellFormed(t)
    ensures 0 <= NextResetHours(t) <= 168
    ensures NextResetHours(t) == 168 <==> t == WeekStart(t)
    ensures var monday := Instant(WeekStart(t)) + WEEK;
            Instant(t) + NextResetHours(t) * HOUR <= monday < Instant(t) + (NextResetHours(t) + 1) * HOUR
  {
    WeekStartRounds(t);
  }

  /** Two times fall into the same week exactly when they carry the same offset and their wall
      clocks show the same week: a record written at another offset never counts. */
  lemma SameWeek(a: Time, b: Time)
    requires WellFormed(a) && WellFormed(b)
    ensures Instant(WeekStart(a)) == Instant(WeekStart(b))
            <==> a.offset == b.offset && Wall(a) / WEEK == Wall(b) / WEEK
  {
    WeekStartRounds(a);
    WeekStartRounds(b);
    assert Wall(WeekStart(a)) == (Wall(a) / WEEK) * WEEK;
    assert Wall(WeekStart(b)) == (Wall(b) / WEEK) * WEEK;
    if Instant(WeekStart(a)) == Instant(WeekStart(b)) {
      assert (Wall(a) / WEEK - Wall(b) / WEEK) * WEEK == a.offset - b.offset;
    }
  }

  /** A Wednesday at UTC, and one at eight hours east: its instant lies inside the week of the first,
      and it does not count into it. */
  lemma OtherOffsetNeverCounts()
    ensures var now, other := Time(2, 0, 0), Time(2, 0, 8 * HOUR);
            && WellFormed(now) && WellFormed(other)
            && Instant(WeekStart(now)) <= Instant(other) < Instant(WeekStart(now)) + WEEK
            && !InWeek(Usage(Aware(other), 1, 1), Instant(WeekStart(now)))
  {
  }

  /** A record of the ledger file: its time stamp as read, and its token counts as integers. */
  datatype Stamp = NotText | Unreadable | Naive(day: int, micros: int) | Aware(time: Time)
  datatype Usage = Usage(stamp: Stamp, input: int, output: int)

  /** A stamp without an offset is taken as UTC; one that cannot be read leaves the record out. */
  function TimeOf(s: Stamp): Option<Time> {
    match s
    case Naive(day, micros) => Some(Time(day, micros, 0))
    case Aware(time) => Some(time)
    case _ => None
  }

  /** The week a record counts into, by the instant it starts. */
  function WeekOf(u: Usage): Option<int> {
    if TimeOf(u.stamp).None? then None else Some(Instant(WeekStart(TimeOf(u.stamp).value)))
  }

  predicate InWeek(u: Usage, week: int) {
    WeekOf(u) == Some(week)
  }

  datatype Tokens = Tokens(input: int, output: int)

  function Plus(a: Tokens, b: Tokens): Tokens {
    Tokens(a.input + b.input, a.output + b.output)
  }

  function Share(u: Usage, counted: bool): Tokens {
    if counted then Tokens(u.input, u.output) else Tokens(0, 0)
  }

  /** Which week a record counts into: that of its time, at UTC if its stamp names no offset; and none
      if its stamp cannot be read. East of UTC the clock is ahead of the instant. */
  lemma CountsInto(u: Usage, day: int, micros: int, offset: int, week: int)
    requires 0 <= micros < DAY
    ensures u.stamp == Naive(day, micros) ==>
              (InWeek(u, week) <==> week == (day - day % 7) * DAY)
    ensures u.stamp == Aware(Time(day, micros, offset)) ==>
              (InWeek(u, week) <==> week == (day - day % 7) * DAY - offset)
    ensures u.stamp == NotText || u.stamp == Unreadable ==> !InWeek(u, week)
  {
  }

  /** What the records of one week add up to. */
  function WeekTotal(records: seq<Usage>, week: int): Tokens {
    if records == [] then Tokens(0, 0)
    else Plus(WeekTotal(records[..|records| - 1], week), Share(records[|records| - 1], InWeek(records[|records| - 1], week)))
  }

  /** What all readable records add up to. */
  function GrandTotal(records: seq<Usage>): Tokens {
    if records == [] then Tokens(0, 0)
    else Plus(GrandTotal(records[..|records| - 1]), Share(records[|records| - 1], WeekOf(records[|records| - 1]).Some?))
  }

  /** `_week_bucket_total`. */
  method WeekBucketTotal(records: seq<Usage>, week: int) returns (totalInput: int, totalOutput: int)
    ensures Tokens(totalInput, totalOutput) == WeekTotal(records, week)
  {
    totalInput, totalOutput := 0, 0;
    for i := 0 to |records|
      invariant Tokens(totalInput, totalOutput) == WeekTotal(records[..i], week)
    {
      assert records[..i + 1][..i] == records[..i];
      var time := TimeOf(records[i].stamp);
      if time.None? {
        continue;
      }
      if Instant(WeekStart(time.value)) != week {
        continue;
      }
      totalInput := totalInput + records[i].input;
      totalOutput := totalOutput + records[i].output;
    }
    assert records[..|records|] == records;
  }

  function SumOfWeeks(records: seq<Usage>, weeks: seq<int>): Tokens {
    if weeks == [] then Tokens(0, 0)
    else Plus(SumOfWeeks(records, weeks[..|weeks| - 1]), WeekTotal(records, weeks[|weeks| - 1]))
  }

  predicate Distinct(weeks: seq<int>) {
    forall i, j :: 0 <= i < j < |weeks| ==> weeks[i] != weeks[j]
  }

  /** Every readable record has its week in the list. */
  predicate Covers(weeks: seq<int>, records: seq<Usage>) {
    forall i :: 0 <= i < |records| && WeekOf(records[i]).Some? ==> WeekOf(records[i]).value in weeks
  }

  /** Over any list of distinct weeks that has a place for every readable record, whatever their
      offsets, the weekly totals add up to the grand total: nothing is lost, nothing counted twice. */
  lemma {:induction false} WeeksPartition(records: seq<Usage>, weeks: seq<int>)
    requires Distinct(weeks) && Covers(weeks, records)
    ensures SumOfWeeks(records, weeks) == GrandTotal(records)
  {
    hide WeekOf, SumOfWeeks, GrandTotal, Listed, Covers;
    if records == [] {
      NothingToSum(weeks);
      NoRecords();
    } else {
      var front, u := records[..|records| - 1], records[|records| - 1];
      Placed(records, weeks);
      WeeksPartition(front, weeks);
      OneMore(front, u, weeks);
      LastCounts(records);
      assert records == front + [u];
    }
  }

  lemma Placed(records: seq<Usage>, weeks: seq<int>)
    requires Covers(weeks, records) && records != []
    ensures Covers(weeks, records[..|records| - 1])
    ensures Listed(records[|records| - 1], weeks) <==> WeekOf(records[|records| - 1]).Some?
  {
    hide WeekOf;
    var u := records[|records| - 1];
    if WeekOf(u).Some? {
      var i :| 0 <= i < |weeks| && weeks[i] == WeekOf(u).value;
      assert InWeek(u, weeks[i]);
    }
  }

  lemma LastCounts(records: seq<Usage>)
    requires records != []
    ensures GrandTotal(records)
            == Plus(GrandTotal(records[..|records| - 1]), Share(records[|records| - 1], WeekOf(records[|records| - 1]).Some?))
  {
    hide WeekOf;
  }

  lemma NoRecords()
    ensures GrandTotal([]) == Tokens(0, 0)
  {
  }

  lemma {:induction false} NothingToSum(weeks: seq<int>)
    ensures SumOfWeeks([], weeks) == Tokens(0, 0)
  {
    if weeks != [] {
      NothingToSum(weeks[..|weeks| - 1]);
    }
  }

  /** One more record adds its tokens once, if its week is listed. */
  lemma {:induction false} OneMore(records: seq<Usage>, u: Usage, weeks: seq<int>)
    requires Distinct(weeks)
    ensures SumOfWeeks(records + [u], weeks) == Plus(SumOfWeeks(records, weeks), Share(u, Listed(u, weeks)))
  {
    hide InWeek, WeekOf, WeekTotal, Listed, Plus, Share;
    if weeks == [] {
      NotListed(u);
      NothingAdded(SumOfWeeks(records, weeks), u);
    } else {
      var front, week := weeks[..|weeks| - 1], weeks[|weeks| - 1];
      OneMore(records, u, front);
      OneMoreInWeek(records, u, week);
      ListedOnce(u, weeks);
      Together(SumOfWeeks(records, front), WeekTotal(records, week), u, Listed(u, front), InWeek(u, week));
    }
  }

  lemma OneMoreInWeek(records: seq<Usage>, u: Usage, week: int)
    ensures WeekTotal(records + [u], week) == Plus(WeekTotal(records, week), Share(u, InWeek(u, week)))
  {
    hide InWeek;
    assert (records + [u])[..|records|] == records;
  }

  lemma Together(a: Tokens, b: Tokens, u: Usage, x: bool, y: bool)
    requires !(x && y)
    ensures Plus(Plus(a, Share(u, x)), Plus(b, Share(u, y))) == Plus(Plus(a, b), Share(u, x || y))
  {
  }

  lemma NothingAdded(a: Tokens, u: Usage)
    ensures Plus(a, Share(u, false)) == a
  {
  }

  lemma NotListed(u: Usage)
    ensures !Listed(u, [])
  {
  }

  predicate Listed(u: Usage, weeks: seq<int>) {
    exists i :: 0 <= i < |weeks| && InWeek(u, weeks[i])
  }

  /** Of distinct weeks a record lies in one at most. */
  lemma ListedOnce(u: Usage, weeks: seq<int>)
    requires Distinct(weeks) && weeks != []
    ensures var front, week := weeks[..|weeks| - 1], weeks[|weeks| - 1];
            && (Listed(u, weeks) <==> Listed(u, front) || InWeek(u, week))
            && !(Listed(u, front) && InWeek(u, week))
  {
    hide WeekOf;
    var front, week := weeks[..|weeks| - 1], weeks[|weeks| - 1];
    forall i | 0 <= i < |front| && InWeek(u, front[i])
      ensures !InWeek(u, week) && InWeek(u, weeks[i])
    {
      assert weeks[i] == front[i];
    }
    if InWeek(u, week) {
      assert InWeek(u, weeks[|weeks| - 1]);
    }
    if Listed(u, weeks) && !InWeek(u, week) {
      var i :| 0 <= i < |weeks| && InWeek(u, weeks[i]);
      assert front[i] == weeks[i];
    }
  }
}
