/**
 Reading a cursor position report (CPR, section 8.3.14 of ECMA-48) from a terminal that
 answers in arbitrary pieces (examples/tui/36_width_probe.py). A byte is the character with
 its code.
 */
module CursorReport {
  import opened Options
  import opened Decimals

  const ESC: char := '\U{001B}'

  datatype Match = Match(start: nat, end: nat, row: nat, column: nat)

  /** The end of the run of digits that starts at `i`. */
  function DigitsEnd(b: string, i: nat): (e: nat)
    requires i <= |b|
    ensures i <= e <= |b|
    ensures AllDigits(b[i..e])
    ensures e < |b| ==> !IsDigit(b[e])
    decreases |b| - i
  {
    if i < |b| && IsDigit(b[i]) then DigitsEnd(b, i + 1) else i
  }

  /** `\x1b\[(\d+);(\d+)R` at position `i`. */
  function MatchAt(b: string, i: nat): Option<Match> {
    if i + 2 > |b| || b[i] != ESC || b[i + 1] != '[' then None
    else
      var r := DigitsEnd(b, i + 2);
      if r == i + 2 || r == |b| || b[r] != ';' then None
      else
        var c := DigitsEnd(b, r + 1);
        if c == r + 1 || c == |b| || b[c] != 'R' then None
        else Some(Match(i, c + 1, Parse(b[i + 2..r]), Parse(b[r + 1..c])))
  }

  /** The leftmost match from position `i` on. */
  function Search(b: string, i: nat): Option<Match>
    decreases |b| - i
  {
    if i >= |b| then None else if MatchAt(b, i).Some? then MatchAt(b, i) else Search(b, i + 1)
  }

  // --------------------------------------------------- what a match is

  function Framed(rows: string, columns: string): string {
    [ESC, '['] + rows + [';'] + columns + ['R']
  }

  predicate Digits(s: string) {
    s != [] && AllDigits(s)
  }

  lemma {:induction false} DigitsEndIs(b: string, i: nat, e: nat)
    requires i <= e < |b| && AllDigits(b[i..e]) && !IsDigit(b[e])
    ensures DigitsEnd(b, i) == e
    decreases e - i
  {
    if i < e {
      assert b[i..e][0] == b[i];
      assert b[i + 1..e] == b[i..e][1..];
      DigitsEndIs(b, i + 1, e);
    }
  }

  /** A match is a framed pair of digit runs, and gives the numbers they denote. */
  lemma MatchIsFramed(b: string, i: nat)
    requires MatchAt(b, i).Some?
    ensures var m := MatchAt(b, i).value;
            && m.start == i < m.end <= |b|
            && exists rows, columns :: Digits(rows) && Digits(columns) && b[i..m.end] == Framed(rows, columns)
                                       && m.row == Parse(rows) && m.column == Parse(columns)
  {
    hide Parse, DigitsEnd;
    var r := DigitsEnd(b, i + 2);
    var c := DigitsEnd(b, r + 1);
    Pieces(b, i, r, c);
    assert b[i..c + 1] == Framed(b[i + 2..r], b[r + 1..c]);
  }

  lemma Pieces(b: string, i: nat, r: nat, c: nat)
    requires i + 2 <= r < c < |b|
    ensures b[i..c + 1] == [b[i], b[i + 1]] + b[i + 2..r] + [b[r]] + b[r + 1..c] + [b[c]]
  {
    assert b[i..r] == [b[i], b[i + 1]] + b[i + 2..r];
    assert b[i..c + 1] == b[i..r] + b[r..c + 1];
    assert b[r..c + 1] == [b[r]] + b[r + 1..c] + [b[c]];
  }

  /** The row digits end at `r` and the column digits at `c`. */
  predicate Parts(b: string, i: nat, r: nat, c: nat) {
    && i + 2 < r && r + 1 < c < |b|
    && b[i] == ESC && b[i + 1] == '[' && b[r] == ';' && b[c] == 'R'
    && AllDigits(b[i + 2..r]) && AllDigits(b[r + 1..c])
  }

  lemma MatchByParts(b: string, i: nat, r: nat, c: nat)
    requires Parts(b, i, r, c)
    ensures MatchAt(b, i) == Some(Match(i, c + 1, Parse(b[i + 2..r]), Parse(b[r + 1..c])))
  {
    hide Parse;
    DigitsEndIs(b, i + 2, r);
    DigitsEndIs(b, r + 1, c);
  }

  lemma FramedParts(before: string, rows: string, columns: string, after: string)
    requires Digits(rows) && Digits(columns)
    ensures var b, i, r := before + Framed(rows, columns) + after, |before|, |before| + 2 + |rows|;
            && Parts(b, i, r, r + 1 + |columns|)
            && b[i + 2..r] == rows && b[r + 1..r + 1 + |columns|] == columns
  {
    var b, i, r := before + Framed(rows, columns) + after, |before|, |before| + 2 + |rows|;
    assert b[i + 2..r] == rows;
    assert b[r + 1..r + 1 + |columns|] == columns;
  }

  /** Every framed pair of digit runs is matched, wherever it stands. */
  lemma FramedMatches(before: string, rows: string, columns: string, after: string)
    requires Digits(rows) && Digits(columns)
    ensures MatchAt(before + Framed(rows, columns) + after, |before|)
            == Some(Match(|before|, |before| + |Framed(rows, columns)|, Parse(rows), Parse(columns)))
  {
    hide Parse, MatchAt, Parts;
    var r := |before| + 2 + |rows|;
    FramedParts(before, rows, columns, after);
    MatchByParts(before + Framed(rows, columns) + after, |before|, r, r + 1 + |columns|);
  }

  // ------------------------------------------------------- more input

  /** A match stays the same match when more bytes arrive. */
  lemma MatchExtends(b: string, more: string, i: nat)
    requires MatchAt(b, i).Some?
    ensures MatchAt(b + more, i) == MatchAt(b, i)
  {
    hide Parse;
    var r := DigitsEnd(b, i + 2);
    var c := DigitsEnd(b, r + 1);
    assert (b + more)[i + 2..r] == b[i + 2..r] && (b + more)[r + 1..c] == b[r + 1..c];
    MatchByParts(b + more, i, r, c);
  }

  /** A match that ends early enough was there before the last bytes arrived. */
  lemma MatchShrinks(b: string, more: string, i: nat)
    requires MatchAt(b + more, i).Some? && MatchAt(b + more, i).value.end <= |b|
    ensures MatchAt(b, i).Some?
  {
    hide Parse;
    var r := DigitsEnd(b + more, i + 2);
    var c := DigitsEnd(b + more, r + 1);
    assert (b + more)[i + 2..r] == b[i + 2..r] && (b + more)[r + 1..c] == b[r + 1..c];
    MatchByParts(b, i, r, c);
  }

  /** No match holds a second escape byte. */
  lemma OneEscape(b: string, i: nat, k: nat)
    requires MatchAt(b, i).Some? && i < k < MatchAt(b, i).value.end
    ensures k < |b| && b[k] != ESC
  {
    var m := MatchAt(b, i).value;
    MatchIsFramed(b, i);
    var rows, columns :| Digits(rows) && Digits(columns) && b[i..m.end] == Framed(rows, columns)
                         && m.row == Parse(rows) && m.column == Parse(columns);
    assert b[k] == Framed(rows, columns)[k - i];
  }

  /** The search returns the leftmost match, if there is one. */
  lemma {:induction false} SearchIsLeftmost(b: string, i: nat)
    ensures var r := Search(b, i);
            if r.Some?
            then i <= r.value.start < |b| && r == MatchAt(b, r.value.start)
                 && forall j :: i <= j < r.value.start ==> MatchAt(b, j).None?
            else forall j :: i <= j ==> MatchAt(b, j).None?
    decreases |b| - i
  {
    if i < |b| && MatchAt(b, i).None? {
      SearchIsLeftmost(b, i + 1);
    }
  }

  /** Once something has been found, later bytes never change the answer: a match that starts
      earlier and completes later would hold the escape byte of the one already found. */
  lemma FoundIsFinal(b: string, more: string)
    requires Search(b, 0).Some?
    ensures Search(b + more, 0) == Search(b, 0)
  {
    hide MatchAt, Search;
    SearchIsLeftmost(b, 0);
    SearchIsLeftmost(b + more, 0);
    var m := Search(b, 0).value;
    MatchExtends(b, more, m.start);
    StartsWithEscape(b, m.start);
    forall j: nat | j < m.start
      ensures MatchAt(b + more, j).None?
    {
      if MatchAt(b + more, j).Some? {
        if MatchAt(b + more, j).value.end > m.start {
          OneEscape(b + more, j, m.start);
        } else {
          MatchShrinks(b, more, j);
        }
        assert false;
      }
    }
  }

  lemma StartsWithEscape(b: string, i: nat)
    requires MatchAt(b, i).Some?
    ensures i < |b| && b[i] == ESC
  {
  }

  // ------------------------------------------------------------- the reader

  function Concat(pieces: seq<string>): string {
    if pieces == [] then "" else pieces[0] + Concat(pieces[1..])
  }

  /** Everything that arrives before the end of input, an empty read or the deadline. */
  function Stream(pieces: seq<string>): string {
    if pieces == [] || pieces[0] == "" then "" else pieces[0] + Stream(pieces[1..])
  }

  function Answer(m: Option<Match>): Option<(nat, nat)> {
    if m.None? then None else Some((m.value.row, m.value.column))
  }

  lemma {:induction false} StreamSplit(pieces: seq<string>, i: nat)
    requires i <= |pieces| && forall k :: 0 <= k < i ==> pieces[k] != ""
    ensures Stream(pieces) == Stream(pieces[..i]) + Stream(pieces[i..])
  {
    if i == 0 {
      assert pieces[0..] == pieces;
    } else {
      StreamSplit(pieces[1..], i - 1);
      assert pieces[..i][1..] == pieces[1..][..i - 1];
      assert pieces[1..][i - 1..] == pieces[i..];
    }
  }

  lemma StreamAppend(pieces: seq<string>, i: nat)
    requires i < |pieces| && forall k :: 0 <= k <= i ==> pieces[k] != ""
    ensures Stream(pieces[..i + 1]) == Stream(pieces[..i]) + pieces[i]
  {
    StreamSplit(pieces[..i + 1], i);
    assert pieces[..i + 1][..i] == pieces[..i];
    assert pieces[..i + 1][i..] == [pieces[i]];
    assert Stream([pieces[i]]) == pieces[i] + Stream([]);
  }

  /** `_query_cursor_position` over the reads that come in before its deadline. The answer is
      that of one search over the whole stream, so it does not depend on how it was cut. */
  method QueryCursorPosition(pieces: seq<string>) returns (position: Option<(nat, nat)>)
    ensures position == Answer(Search(Stream(pieces), 0))
  {
    var response, i := "", 0;
    while i < |pieces|
      invariant 0 <= i <= |pieces|
      invariant forall k :: 0 <= k < i ==> pieces[k] != ""
      invariant response == Stream(pieces[..i])
      invariant Search(response, 0).None?
    {
      var chunk := pieces[i];
      if chunk == "" {
        break;
      }
      StreamAppend(pieces, i);
      response := response + chunk;
      var found := Search(response, 0);
      if found.Some? {
        StreamSplit(pieces, i + 1);
        FoundIsFinal(response, Stream(pieces[i + 1..]));
        return Some((found.value.row, found.value.column));
      }
      i := i + 1;
    }
    StreamSplit(pieces, i);
    assert Stream(pieces) == response;
    position := None;
  }

  lemma {:induction false} StreamIsConcat(pieces: seq<string>)
    requires forall k :: 0 <= k < |pieces| ==> pieces[k] != ""
    ensures Stream(pieces) == Concat(pieces)
  {
    if pieces != [] {
      StreamIsConcat(pieces[1..]);
    }
  }

  /** Two ways of cutting the same bytes into chunks are one stream to search. */
  lemma SplitInvariance(a: seq<string>, b: seq<string>)
    requires forall k :: 0 <= k < |a| ==> a[k] != ""
    requires forall k :: 0 <= k < |b| ==> b[k] != ""
    requires Concat(a) == Concat(b)
    ensures Search(Stream(a), 0) == Search(Stream(b), 0)
  {
    StreamIsConcat(a);
    StreamIsConcat(b);
  }

  /** The reader run on two cuts of one stream answers alike, though on each it stops reading as
      soon as it has a match and may leave different chunks unread. */
  method QueryBothCuts(a: seq<string>, b: seq<string>) returns (p: Option<(nat, nat)>, q: Option<(nat, nat)>)
    requires forall k :: 0 <= k < |a| ==> a[k] != ""
    requires forall k :: 0 <= k < |b| ==> b[k] != ""
    requires Concat(a) == Concat(b)
    ensures p == q == Answer(Search(Concat(a), 0))
  {
    p := QueryCursorPosition(a);
    q := QueryCursorPosition(b);
    StreamIsConcat(a);
    SplitInvariance(a, b);
  }

  /** A terminal's report of any position is read back, behind any escape-free noise and before
      anything else. */
  lemma ReportRoundTrip(noise: string, row: nat, column: nat, rest: string)
    requires ESC !in noise
    ensures Answer(Search(noise + Framed(Print(row), Print(column)) + rest, 0)) == Some((row, column))
  {
    hide Parse, Print, MatchAt, Search;
    PrintIsCanonical(row);
    PrintIsCanonical(column);
    var b := noise + Framed(Print(row), Print(column)) + rest;
    FramedMatches(noise, Print(row), Print(column), rest);
    SearchIsLeftmost(b, 0);
    assert forall j :: 0 <= j < |noise| ==> b[j] == noise[j];
    forall j: nat | j < |noise|
      ensures MatchAt(b, j).None?
    {
      if MatchAt(b, j).Some? {
        StartsWithEscape(b, j);
        assert false;
      }
    }
  }
}
