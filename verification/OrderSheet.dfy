/**
 The order entry sheet of examples/tui/58_widgets_datagrid.py. The grid is a list of keyed
 rows, as src/loushang/tui/ui_parts/widgets/data_grid.py keeps it; a blank cell is None.
 Prices are reals and `upper` is whatever `str.upper` does.
 */
module OrderSheet {
  import opened Options
  import opened Decimals

  datatype Row = Row(key: string, code: string, name: string, qty: Option<real>, price: Option<real>, total: real)

  datatype Order = Order(rows: seq<Row>, active: Option<string>)

  datatype Edit = CodeEdit(code: string) | QtyEdit(qty: nat)

  const TOTAL := "total"

  const ORDER_CATALOG: map<string, (string, real)> := map[
    "A100" := ("Adapter", 19.5),
    "B200" := ("Bracket", 42.0),
    "C300" := ("Clamp", 7.25),
    "D400" := ("Driver", 13.75)]

  function Lookup(code: string): (string, real) {
    if code in ORDER_CATALOG then ORDER_CATALOG[code] else ("Custom", 0.0)
  }

  /** First row with this key, or the number of rows. */
  function IndexOf(rows: seq<Row>, key: string): (k: nat)
    ensures k <= |rows| && (k < |rows| ==> rows[k].key == key)
    ensures forall i :: 0 <= i < k ==> rows[i].key != key
  {
    if rows == [] || rows[0].key == key then 0 else 1 + IndexOf(rows[1..], key)
  }

  predicate HasKey(rows: seq<Row>, key: string) {
    IndexOf(rows, key) < |rows|
  }

  function LineTotal(r: Row): real {
    if r.qty.None? || r.price.None? then 0.0 else r.qty.value * r.price.value
  }

  /** What all order lines come to. */
  function SumLines(rows: seq<Row>): real {
    if rows == [] then 0.0
    else
      var last := rows[|rows| - 1];
      SumLines(rows[..|rows| - 1]) + if last.key == TOTAL then 0.0 else LineTotal(last)
  }

  function Refreshed(rows: seq<Row>): (r: seq<Row>)
    ensures |r| == |rows|
    ensures forall i :: 0 <= i < |rows| ==>
                          r[i] == rows[i].(total := if rows[i].key == TOTAL then SumLines(rows) else LineTotal(rows[i]))
  {
    seq(|rows|, i requires 0 <= i < |rows| =>
      rows[i].(total := if rows[i].key == TOTAL then SumLines(rows) else LineTotal(rows[i])))
  }

  // ------------------------------------------------------ the next line number

  function LineKey(n: nat): string {
    "line-" + Print(n)
  }

  lemma LineKeyInjective(a: nat, b: nat)
    requires LineKey(a) == LineKey(b)
    ensures a == b
  {
    hide Print;
    assert Print(a) == LineKey(a)[5..] && Print(b) == LineKey(b)[5..];
    PrintInjective(a, b);
  }

  function Keys(rows: seq<Row>): (keys: set<string>)
    ensures forall i :: 0 <= i < |rows| ==> rows[i].key in keys
    ensures |keys| <= |rows|
  {
    if rows == [] then {} else Keys(rows[..|rows| - 1]) + {rows[|rows| - 1].key}
  }

  function FirstLineKeys(n: nat): set<string> {
    if n == 0 then {} else FirstLineKeys(n - 1) + {LineKey(n)}
  }

  lemma {:induction false} FirstLineKeysSize(n: nat)
    ensures |FirstLineKeys(n)| == n
    ensures forall key :: key in FirstLineKeys(n) ==> exists i: nat :: 1 <= i <= n && key == LineKey(i)
  {
    hide LineKey;
    if n > 0 {
      FirstLineKeysSize(n - 1);
      if LineKey(n) in FirstLineKeys(n - 1) {
        var i: nat :| 1 <= i <= n - 1 && LineKey(n) == LineKey(i);
        LineKeyInjective(n, i);
      }
    }
  }

  lemma {:induction false} FirstLineKeysUsed(rows: seq<Row>, n: nat)
    requires forall i: nat :: 1 <= i <= n ==> HasKey(rows, LineKey(i))
    ensures FirstLineKeys(n) <= Keys(rows)
  {
    hide LineKey;
    if n > 0 {
      FirstLineKeysUsed(rows, n - 1);
      assert HasKey(rows, LineKey(n));
    }
  }

  lemma SubsetSize<T>(a: set<T>, b: set<T>)
    requires a <= b
    ensures |a| <= |b|
  {
    assert b == a + (b - a);
  }

  /** Pigeonhole: the first `n` numbers can all be taken only if there are that many rows. */
  lemma UsedBounded(rows: seq<Row>, n: nat)
    requires forall i: nat :: 1 <= i <= n ==> HasKey(rows, LineKey(i))
    ensures n <= |rows|
  {
    FirstLineKeysSize(n);
    FirstLineKeysUsed(rows, n);
    SubsetSize(FirstLineKeys(n), Keys(rows));
  }

  /** The least number whose key is not in use. */
  ghost predicate IsNextNumber(rows: seq<Row>, n: nat) {
    1 <= n && !HasKey(rows, LineKey(n)) && forall i: nat :: 1 <= i < n ==> HasKey(rows, LineKey(i))
  }

  function NextNumber(rows: seq<Row>, n: nat): (r: nat)
    requires 1 <= n && forall i: nat :: 1 <= i < n ==> HasKey(rows, LineKey(i))
    ensures IsNextNumber(rows, r) && r <= |rows| + 1
    decreases |rows| + 1 - n
  {
    UsedBounded(rows, n - 1);
    if HasKey(rows, LineKey(n)) then UsedBounded(rows, n); NextNumber(rows, n + 1) else n
  }

  lemma NextNumberIs(rows: seq<Row>, n: nat)
    requires 1 <= n && !HasKey(rows, LineKey(n)) && forall i: nat :: 1 <= i < n ==> HasKey(rows, LineKey(i))
    ensures NextNumber(rows, 1) == n
  {
    hide LineKey, HasKey;
    var m := NextNumber(rows, 1);
    assert IsNextNumber(rows, m);
  }

  function BlankLine(n: nat): Row {
    Row(LineKey(n), "", "", Some(1.0), None, 0.0)
  }

  function Appended(rows: seq<Row>): seq<Row> {
    var at := IndexOf(rows, TOTAL);
    rows[..at] + [BlankLine(NextNumber(rows, 1))] + rows[at..]
  }

  function Lines(rows: seq<Row>): seq<string> {
    if rows == [] then []
    else
      var last := rows[|rows| - 1];
      Lines(rows[..|rows| - 1]) + if last.key == TOTAL then [] else [last.key]
  }

  predicate IsLastOrderLine(rows: seq<Row>, key: string) {
    var lines, k := Lines(rows), IndexOf(rows, key);
    lines != [] && lines[|lines| - 1] == key && k < |rows| && rows[k].code != ""
  }

  // --------------------------------------------------------------- operations

  function Edited(rows: seq<Row>, k: nat, edit: Edit, upper: string -> string): seq<Row>
    requires k < |rows|
  {
    match edit
    case CodeEdit(code) =>
      var (name, price) := Lookup(upper(code));
      rows[k := rows[k].(code := upper(code), name := name, price := Some(price))]
    case QtyEdit(qty) => rows[k := rows[k].(qty := Some(qty as real))]
  }

  /** A committed edit of a cell of row `key`, then `_apply_order_edit`. */
  function AfterEdit(o: Order, key: string, edit: Edit, upper: string -> string): Order {
    var k := IndexOf(o.rows, key);
    if k == |o.rows| || key == TOTAL then o
    else
      var rows := Refreshed(Edited(o.rows, k, edit, upper));
      if edit.QtyEdit? && IsLastOrderLine(rows, key)
      then Order(Appended(rows), Some(LineKey(NextNumber(rows, 1))))
      else o.(rows := rows)
  }

  function Position(keys: seq<string>, key: string): (k: nat)
    ensures k <= |keys| && (k < |keys| ==> keys[k] == key)
  {
    if keys == [] || keys[0] == key then 0 else 1 + Position(keys[1..], key)
  }

  function Without(rows: seq<Row>, k: nat): (left: seq<Row>)
    requires k < |rows|
    ensures |left| == |rows| - 1
    ensures forall i :: 0 <= i < |left| ==> left[i] == rows[if i < k then i else i + 1]
  {
    rows[..k] + rows[k + 1..]
  }

  /** `_delete_order_row`. */
  function AfterDelete(o: Order): Order {
    if o.active.None? || o.active.value == TOTAL || !HasKey(o.rows, o.active.value) then o
    else
      var k := IndexOf(o.rows, o.active.value);
      var deleted := Position(Lines(o.rows), o.active.value);
      var left := Without(o.rows, k);
      var rows := Refreshed(if Lines(left) == [] then Appended(left) else left);
      var next := Lines(rows);
      if next == [] then o.(rows := rows)
      else Order(rows, Some(next[if deleted < |next| then deleted else |next| - 1]))
  }

  /** The grid refuses a second row with the same key. */
  predicate UniqueKeys(rows: seq<Row>) {
    forall i, j :: 0 <= i < j < |rows| ==> rows[i].key != rows[j].key
  }

  lemma AppendedIsUnique(rows: seq<Row>)
    requires UniqueKeys(rows)
    ensures UniqueKeys(Appended(rows))
  {
    hide LineKey, NextNumber;
    var key := LineKey(NextNumber(rows, 1));
    assert forall i :: 0 <= i < |rows| ==> rows[i].key != key;
  }

  lemma {:induction false} LinesConcat(a: seq<Row>, b: seq<Row>)
    ensures Lines(a + b) == Lines(a) + Lines(b)
  {
    if b == [] {
      assert a + b == a;
    } else {
      assert (a + b)[..|a + b| - 1] == a + b[..|b| - 1];
      LinesConcat(a, b[..|b| - 1]);
    }
  }

  lemma LineKeyIsNotTotal(n: nat)
    ensures LineKey(n) != TOTAL
  {
    assert LineKey(n)[0] == 'l';
  }

  /** A new line goes in front of the total row, after all other lines. */
  lemma AppendedLines(rows: seq<Row>)
    ensures Lines(Appended(rows)) == Lines(rows[..IndexOf(rows, TOTAL)]) + [LineKey(NextNumber(rows, 1))] + Lines(rows[IndexOf(rows, TOTAL)..])
  {
    hide LineKey, NextNumber;
    var at, line := IndexOf(rows, TOTAL), BlankLine(NextNumber(rows, 1));
    LineKeyIsNotTotal(NextNumber(rows, 1));
    assert [line][..0] == [];
    assert Lines([line]) == [line.key];
    LinesConcat(rows[..at], [line]);
    LinesConcat(rows[..at] + [line], rows[at..]);
  }

  lemma AppendedHasLine(rows: seq<Row>)
    ensures Lines(Appended(rows)) != []
  {
    hide LineKey, NextNumber, Appended, Lines;
    AppendedLines(rows);
  }

  lemma WithoutIsUnique(rows: seq<Row>, k: nat)
    requires UniqueKeys(rows) && k < |rows|
    ensures UniqueKeys(Without(rows, k))
  {
    hide Without;
    var left := Without(rows, k);
    forall i, j | 0 <= i < j < |left|
      ensures left[i].key != left[j].key
    {
      var x, y := if i < k then i else i + 1, if j < k then j else j + 1;
      assert left[i] == rows[x] && left[j] == rows[y] && x < y;
    }
  }

  lemma RefreshedIsUnique(rows: seq<Row>)
    requires UniqueKeys(rows)
    ensures UniqueKeys(Refreshed(rows))
  {
    hide Refreshed;
    assert forall i :: 0 <= i < |rows| ==> Refreshed(rows)[i].key == rows[i].key;
  }

  lemma {:induction false} LinesSameKeys(a: seq<Row>, b: seq<Row>)
    requires |a| == |b| && forall i :: 0 <= i < |a| ==> a[i].key == b[i].key
    ensures Lines(a) == Lines(b)
  {
    if a != [] {
      LinesSameKeys(a[..|a| - 1], b[..|b| - 1]);
    }
  }

  class OrderEntry {
    var rows: seq<Row>
    var active: Option<string>
    const upper: string -> string

    function State(): Order
      reads this
    {
      Order(rows, active)
    }

    constructor (rows: seq<Row>, active: Option<string>, upper: string -> string)
      ensures State() == Order(rows, active) && this.upper == upper
    {
      this.rows, this.active, this.upper := rows, active, upper;
    }

    /** `_refresh_order_total`: every line cell is rewritten in place and summed on the way. */
    method RefreshTotal()
      requires UniqueKeys(rows)
      modifies this`rows
      ensures rows == Refreshed(old(rows))
    {
      hide LineTotal;
      ghost var was := rows;
      var total := 0.0;
      for i := 0 to |rows|
        invariant |rows| == |was| && total == SumLines(was[..i])
        invariant forall j :: 0 <= j < i ==>
                                rows[j] == if was[j].key == TOTAL then was[j] else was[j].(total := LineTotal(was[j]))
        invariant forall j :: i <= j < |rows| ==> rows[j] == was[j]
      {
        assert was[..i + 1][..i] == was[..i];
        if rows[i].key != TOTAL {
          total := total + LineTotal(rows[i]);
          rows := rows[i := rows[i].(total := LineTotal(rows[i]))];
        }
      }
      assert was[..|was|] == was;
      var at := IndexOf(rows, TOTAL);
      if at < |rows| {
        rows := rows[at := rows[at].(total := total)];
      }
      assert rows == Refreshed(was);
    }

    /** `_append_order_line`: counts up from one until a key is free. */
    method AppendLine()
      requires UniqueKeys(rows)
      modifies this
      ensures UniqueKeys(rows)
      ensures State() == Order(Appended(old(rows)), Some(LineKey(NextNumber(old(rows), 1))))
    {
      hide LineKey, NextNumber, Lines;
      var n := 1;
      while HasKey(rows, LineKey(n))
        invariant rows == old(rows)
        invariant 1 <= n && forall i: nat :: 1 <= i < n ==> HasKey(rows, LineKey(i))
        decreases |rows| + 1 - n
      {
        UsedBounded(rows, n);
        n := n + 1;
      }
      NextNumberIs(rows, n);
      AppendedIsUnique(rows);
      var at := IndexOf(rows, TOTAL);
      active := Some(LineKey(n));
      rows := rows[..at] + [BlankLine(n)] + rows[at..];
    }

    method ApplyEdit(key: string, edit: Edit)
      requires UniqueKeys(rows)
      modifies this
      ensures UniqueKeys(rows)
      ensures State() == AfterEdit(old(State()), key, edit, upper)
    {
      hide LineKey, NextNumber, Lines, SumLines, Appended;
      var k := IndexOf(rows, key);
      if k == |rows| || key == TOTAL {
        return;
      }
      rows := Edited(rows, k, edit, upper);
      RefreshTotal();
      assert UniqueKeys(rows);
      if edit.QtyEdit? && IsLastOrderLine(rows, key) {
        AppendLine();
      }
    }

    method DeleteActiveRow() returns (deleted: bool)
      requires UniqueKeys(rows)
      modifies this
      ensures UniqueKeys(rows)
      ensures State() == AfterDelete(old(State()))
      ensures deleted <==> old(active).Some? && old(active).value != TOTAL && HasKey(old(rows), old(active).value)
    {
      hide LineKey, NextNumber, SumLines, Appended, LineTotal, Without, Position, Lines, IsLastOrderLine, UniqueKeys;
      if active.None? || active.value == TOTAL || !HasKey(rows, active.value) {
        return false;
      }
      var k := IndexOf(rows, active.value);
      var position := Position(Lines(rows), active.value);
      WithoutIsUnique(rows, k);
      rows := Without(rows, k);
      if Lines(rows) == [] {
        AppendedHasLine(rows);
        AppendLine();
      }
      ghost var left := rows;
      RefreshTotal();
      RefreshedIsUnique(left);
      LinesSameKeys(left, rows);
      var next := Lines(rows);
      assert next != [];
      active := Some(next[if position < |next| then position else |next| - 1]);
      deleted := true;
    }
  }

  // -------------------------------------------------------------- the sheet

  ghost predicate IsLineKey(key: string) {
    exists n: nat :: n >= 1 && key == LineKey(n)
  }

  /** The rows of a sheet in order: unique keys, the total row last and only there, at least one
      line, every line cell and the total cell up to date, and only numbered lines. */
  ghost predicate Sheet(rows: seq<Row>) {
    && UniqueKeys(rows)
    && |rows| >= 2
    && (forall i :: 0 <= i < |rows| ==> (rows[i].key == TOTAL <==> i == |rows| - 1))
    && (forall i :: 0 <= i < |rows| - 1 ==> rows[i].total == LineTotal(rows[i]))
    && rows[|rows| - 1].total == SumLines(rows)
    && (forall i :: 0 <= i < |rows| - 1 ==> IsLineKey(rows[i].key))
  }

  /** A sheet whose cells may be out of date. */
  ghost predicate Shape(rows: seq<Row>) {
    && UniqueKeys(rows)
    && |rows| >= 1
    && (forall i :: 0 <= i < |rows| ==> (rows[i].key == TOTAL <==> i == |rows| - 1))
    && (forall i :: 0 <= i < |rows| - 1 ==> IsLineKey(rows[i].key))
  }

  lemma {:induction false} SumIgnoresCells(a: seq<Row>, b: seq<Row>)
    requires |a| == |b|
    requires forall i :: 0 <= i < |a| ==> a[i].key == b[i].key && a[i].qty == b[i].qty && a[i].price == b[i].price
    ensures SumLines(a) == SumLines(b)
  {
    if a != [] {
      SumIgnoresCells(a[..|a| - 1], b[..|b| - 1]);
    }
  }

  lemma RefreshMakesSheet(rows: seq<Row>)
    requires Shape(rows) && |rows| >= 2
    ensures Sheet(Refreshed(rows))
  {
    hide LineKey;
    var r := Refreshed(rows);
    SumIgnoresCells(rows, r);
    forall i | 0 <= i < |r| - 1
      ensures IsLineKey(r[i].key)
    {
      assert IsLineKey(rows[i].key);
    }
  }

  lemma AppendKeepsShape(rows: seq<Row>)
    requires Shape(rows)
    ensures Shape(Appended(rows)) && |Appended(rows)| == |rows| + 1
    ensures Appended(rows) == rows[..|rows| - 1] + [BlankLine(NextNumber(rows, 1)), rows[|rows| - 1]]
  {
    hide LineKey, NextNumber;
    var n := NextNumber(rows, 1);
    AppendedIsUnique(rows);
    LineKeyIsNotTotal(n);
    var at := IndexOf(rows, TOTAL);
    assert rows[|rows| - 1].key == TOTAL;
    assert at == |rows| - 1 && rows[at..] == [rows[at]];
    var r := rows[..at] + [BlankLine(n), rows[at]];
    assert Appended(rows) == r;
    forall i | 0 <= i < |r| - 1
      ensures IsLineKey(r[i].key)
    {
      if i < at {
        assert IsLineKey(rows[i].key);
      } else {
        assert r[i].key == LineKey(n);
      }
    }
  }

  /** A new line comes to nothing, so an up-to-date sheet stays up to date. */
  lemma AppendKeepsSheet(rows: seq<Row>)
    requires Sheet(rows)
    ensures Sheet(Appended(rows))
  {
    hide LineKey, NextNumber;
    AppendKeepsShape(rows);
    LineKeyIsNotTotal(NextNumber(rows, 1));
    var head, line, last := rows[..|rows| - 1], BlankLine(NextNumber(rows, 1)), rows[|rows| - 1];
    var r := head + [line, last];
    assert r[..|r| - 1][..|rows| - 1] == head;
    assert r[..|r| - 1] == head + [line];
    assert SumLines(head + [line]) == SumLines(head) + LineTotal(line);
  }

  lemma EditKeepsSheet(o: Order, key: string, edit: Edit, upper: string -> string)
    requires Sheet(o.rows)
    ensures Sheet(AfterEdit(o, key, edit, upper).rows)
  {
    hide LineKey, NextNumber, Appended, SumLines, Lookup;
    var k := IndexOf(o.rows, key);
    if k < |o.rows| && key != TOTAL {
      var edited := Edited(o.rows, k, edit, upper);
      forall i | 0 <= i < |edited| - 1
        ensures IsLineKey(edited[i].key)
      {
        assert edited[i].key == o.rows[i].key;
      }
      assert Shape(edited);
      RefreshMakesSheet(edited);
      AppendKeepsSheet(Refreshed(edited));
    }
  }

  lemma RemoveKeepsShape(rows: seq<Row>, k: nat)
    requires Shape(rows) && k < |rows| - 1
    ensures Shape(Without(rows, k))
  {
    hide LineKey, Without;
    var left := Without(rows, k);
    WithoutIsUnique(rows, k);
    forall i | 0 <= i < |left|
      ensures left[i].key == TOTAL <==> i == |left| - 1
    {
      assert left[i] == rows[if i < k then i else i + 1];
    }
    forall i | 0 <= i < |left| - 1
      ensures IsLineKey(left[i].key)
    {
      var x := if i < k then i else i + 1;
      assert left[i] == rows[x] && IsLineKey(rows[x].key);
    }
  }

  lemma DeleteKeepsSheet(o: Order)
    requires Sheet(o.rows)
    ensures Sheet(AfterDelete(o).rows)
  {
    hide LineKey, NextNumber, Appended, SumLines;
    if o.active.Some? && o.active.value != TOTAL && HasKey(o.rows, o.active.value) {
      var k := IndexOf(o.rows, o.active.value);
      var left := Without(o.rows, k);
      RemoveKeepsShape(o.rows, k);
      AppendKeepsShape(left);
      if Lines(left) == [] {
        RefreshMakesSheet(Appended(left));
      } else {
        if |left| == 1 {
          LinesOfTotal(left);
          assert false;
        }
        RefreshMakesSheet(left);
      }
    }
  }

  lemma LinesOfTotal(rows: seq<Row>)
    requires |rows| == 1 && rows[0].key == TOTAL
    ensures Lines(rows) == []
  {
    assert rows[..0] == [];
  }

  /** The order lines of a sheet are its rows but the last, in order. */
  lemma {:induction false} LinesBeforeTotal(rows: seq<Row>, n: nat)
    requires n <= |rows| && forall i :: 0 <= i < n ==> rows[i].key != TOTAL
    ensures |Lines(rows[..n])| == n && forall i :: 0 <= i < n ==> Lines(rows[..n])[i] == rows[i].key
  {
    if n > 0 {
      assert rows[..n][..n - 1] == rows[..n - 1];
      LinesBeforeTotal(rows, n - 1);
    }
  }

  lemma LinesOfSheet(rows: seq<Row>)
    requires Shape(rows)
    ensures |Lines(rows)| == |rows| - 1 && forall i :: 0 <= i < |rows| - 1 ==> Lines(rows)[i] == rows[i].key
  {
    LinesBeforeTotal(rows, |rows| - 1);
    assert Lines(rows) == Lines(rows[..|rows| - 1]);
  }

  lemma AtIndex(rows: seq<Row>, k: nat)
    requires UniqueKeys(rows) && k < |rows|
    ensures IndexOf(rows, rows[k].key) == k
  {
  }

  /** The line that is edited gets the new code, with the name and the price the catalog has for
      it, or the new quantity; no other line changes in any cell. A quantity entered in the last
      line opens a blank one behind it exactly when that line has a code, and the cursor goes there. */
  lemma EditEffect(o: Order, k: nat, edit: Edit, upper: string -> string)
    requires Sheet(o.rows) && k < |o.rows| - 1
    ensures var n, line := |o.rows| - 1, o.rows[k];
            var t := AfterEdit(o, line.key, edit, upper);
            var added := edit.QtyEdit? && k == n - 1 && line.code != "";
            && |t.rows| == |o.rows| + (if added then 1 else 0)
            && (forall i :: 0 <= i < n && i != k ==> t.rows[i] == o.rows[i])
            && (edit.CodeEdit? ==>
                  && t.rows[k].code == upper(edit.code) && t.rows[k].qty == line.qty
                  && (if upper(edit.code) in ORDER_CATALOG
                      then (t.rows[k].name, t.rows[k].price)
                           == (ORDER_CATALOG[upper(edit.code)].0, Some(ORDER_CATALOG[upper(edit.code)].1))
                      else (t.rows[k].name, t.rows[k].price) == ("Custom", Some(0.0))))
            && (edit.QtyEdit? ==> t.rows[k] == line.(qty := Some(edit.qty as real), total := t.rows[k].total))
            && (added ==> IsNextNumber(o.rows, NextNumber(o.rows, 1)) && t.rows[n] == Row(LineKey(NextNumber(o.rows, 1)), "", "", Some(1.0), None, 0.0))
            && t.active == (if added then Some(t.rows[n].key) else o.active)
            && t.rows[k].total == Product(t.rows[k].qty, t.rows[k].price)
            && t.rows[|t.rows| - 1].total - o.rows[n].total == t.rows[k].total - line.total
  {
    hide LineKey, NextNumber, Appended, Edited, Refreshed, Sheet, IsLastOrderLine, LineTotal;
    LookedUp(upper, edit);
    var n, rows := |o.rows| - 1, Refreshed(Edited(o.rows, k, edit, upper));
    SheetAt(o.rows, k);
    CellsAfterEdit(o.rows, k, edit, upper);
    TotalAfterEdit(o.rows, k, edit, upper);
    LastLine(rows, k);
    if edit.QtyEdit? && k == n - 1 && o.rows[k].code != "" {
      AppendAfterSheet(rows);
      SameKeysSameNumber(o.rows, rows);
      assert IsNextNumber(o.rows, NextNumber(o.rows, 1));
    }
  }

  lemma LookedUp(upper: string -> string, edit: Edit)
    ensures edit.CodeEdit? ==>
              Lookup(upper(edit.code)) == if upper(edit.code) in ORDER_CATALOG then ORDER_CATALOG[upper(edit.code)] else ("Custom", 0.0)
  {
  }

  /** Quantity times price; a blank cell counts nothing. */
  function Product(qty: Option<real>, price: Option<real>): real {
    match (qty, price)
    case (Some(q), Some(p)) => q * p
    case _ => 0.0
  }

  lemma LineTotalIsProduct(r: Row)
    ensures LineTotal(r) == Product(r.qty, r.price)
  {
  }

  /** Changing one line moves the sum by the change of that line. */
  lemma {:induction false} SumMoves(rows: seq<Row>, k: nat, row: Row)
    requires k < |rows| && rows[k].key != TOTAL && row.key == rows[k].key
    ensures SumLines(rows[k := row]) - SumLines(rows) == LineTotal(row) - LineTotal(rows[k])
  {
    hide LineTotal;
    var n := |rows| - 1;
    if k < n {
      SumMoves(rows[..n], k, row);
      assert rows[k := row][..n] == rows[..n][k := row];
    } else {
      assert rows[k := row][..n] == rows[..n];
    }
  }

  lemma SheetAt(rows: seq<Row>, k: nat)
    requires Sheet(rows) && k < |rows| - 1
    ensures UniqueKeys(rows) && rows[k].key != TOTAL && IndexOf(rows, rows[k].key) == k
  {
    AtIndex(rows, k);
  }

  lemma AppendAfterSheet(rows: seq<Row>)
    requires Sheet(rows)
    ensures Appended(rows) == rows[..|rows| - 1] + [BlankLine(NextNumber(rows, 1)), rows[|rows| - 1]]
  {
    AppendKeepsShape(rows);
  }

  /** On an up-to-date sheet only the edited line's cells change, and the total. */
  lemma CellsAfterEdit(rows: seq<Row>, k: nat, edit: Edit, upper: string -> string)
    requires Sheet(rows) && k < |rows| - 1
    ensures var after, edited := Refreshed(Edited(rows, k, edit, upper)), Edited(rows, k, edit, upper);
            && |after| == |edited| == |rows| && Sheet(after)
            && (forall i :: 0 <= i < |rows| ==> after[i].key == rows[i].key)
            && (forall i :: 0 <= i < |rows| - 1 && i != k ==> after[i] == rows[i])
            && after[k] == edited[k].(total := after[k].total)
            && edited[k] == match edit
                            case CodeEdit(code) => rows[k].(code := upper(code), name := Lookup(upper(code)).0, price := Some(Lookup(upper(code)).1))
                            case QtyEdit(qty) => rows[k].(qty := Some(qty as real))
  {
    hide LineKey, SumLines, Lookup, LineTotal;
    var edited := Edited(rows, k, edit, upper);
    EditedShape(rows, k, edit, upper);
    RefreshMakesSheet(edited);
  }

  lemma TotalAfterEdit(rows: seq<Row>, k: nat, edit: Edit, upper: string -> string)
    requires Sheet(rows) && k < |rows| - 1
    ensures var after, n := Refreshed(Edited(rows, k, edit, upper)), |rows| - 1;
            && |after| == |rows|
            && after[k].total == Product(after[k].qty, after[k].price)
            && after[n].total - rows[n].total == after[k].total - rows[k].total
  {
    hide LineKey, Lookup, LineTotal, IsLineKey, SumLines;
    var edited := Edited(rows, k, edit, upper);
    EditedShape(rows, k, edit, upper);
    assert edited == rows[k := edited[k]];
    SumMoves(rows, k, edited[k]);
    LineTotalIsProduct(edited[k]);
  }

  lemma EditedShape(rows: seq<Row>, k: nat, edit: Edit, upper: string -> string)
    requires Shape(rows) && k < |rows|
    ensures Shape(Edited(rows, k, edit, upper))
    ensures forall i :: 0 <= i < |rows| ==> Edited(rows, k, edit, upper)[i].key == rows[i].key
  {
    hide LineKey, Lookup, IsLineKey;
    var edited := Edited(rows, k, edit, upper);
    assert forall i :: 0 <= i < |rows| ==> edited[i].key == rows[i].key;
  }

  lemma LastLine(rows: seq<Row>, k: nat)
    requires Sheet(rows) && k < |rows| - 1
    ensures IsLastOrderLine(rows, rows[k].key) <==> k == |rows| - 2 && rows[k].code != ""
  {
    hide LineKey, Lines;
    LinesOfSheet(rows);
    SheetAt(rows, k);
    assert k < |rows| - 2 ==> rows[k].key != rows[|rows| - 2].key;
  }

  lemma SameKeysSameNumber(a: seq<Row>, b: seq<Row>)
    requires UniqueKeys(a) && |a| == |b| && forall i :: 0 <= i < |a| ==> a[i].key == b[i].key
    ensures NextNumber(a, 1) == NextNumber(b, 1)
  {
    hide LineKey, NextNumber;
    var m, n := NextNumber(a, 1), NextNumber(b, 1);
    forall key ensures HasKey(a, key) <==> HasKey(b, key) {
      if HasKey(a, key) {
        assert b[IndexOf(a, key)].key == key;
      }
      if HasKey(b, key) {
        assert a[IndexOf(b, key)].key == key;
      }
    }
    assert IsNextNumber(a, m) && IsNextNumber(b, n);
  }

  /** The active line goes and no other line changes in any cell; the last line to go leaves a
      blank one. The cursor moves to the line that took its place, or to the last one. */
  lemma DeleteEffect(o: Order, k: nat)
    requires Sheet(o.rows) && k < |o.rows| - 1 && o.active == Some(o.rows[k].key)
    ensures var t, n := AfterDelete(o), |o.rows| - 1;
            if n == 1 then
              |t.rows| == 2 && t.rows[0] == Row(LineKey(1), "", "", Some(1.0), None, 0.0) && t.active == Some(LineKey(1))
            else
              && |t.rows| == n
              && (forall i :: 0 <= i < n - 1 ==> t.rows[i] == o.rows[if i < k then i else i + 1])
              && t.active == Some(t.rows[if k < n - 1 then k else n - 2].key)
              && t.rows[n - 1].total == o.rows[n].total - o.rows[k].total
  {
    hide LineKey, Sheet, Without, AfterDelete;
    if |o.rows| == 2 {
      DeleteLast(o, k);
    } else {
      DeleteOne(o, k);
    }
  }

  lemma DeleteLast(o: Order, k: nat)
    requires Sheet(o.rows) && |o.rows| == 2 && k == 0 && o.active == Some(o.rows[k].key)
    ensures var t := AfterDelete(o);
            |t.rows| == 2 && t.rows[0] == BlankLine(1) && t.active == Some(LineKey(1))
  {
    hide LineKey, Appended, Lines, Sheet, Shape, Refreshed, Without, UniqueKeys, Position, HasKey, IndexOf,
         NextNumber, SumLines, LineTotal, BlankLine;
    SheetAt(o.rows, k);
    WithoutLine(o.rows, k);
    Present(o.rows, k);
    BlankAfterLast(Without(o.rows, k));
  }

  lemma DeleteOne(o: Order, k: nat)
    requires Sheet(o.rows) && k < |o.rows| - 1 && |o.rows| > 2 && o.active == Some(o.rows[k].key)
    ensures var t, n := AfterDelete(o), |o.rows| - 1;
            && |t.rows| == n
            && (forall i :: 0 <= i < n - 1 ==> t.rows[i] == o.rows[if i < k then i else i + 1])
            && t.active == Some(t.rows[if k < n - 1 then k else n - 2].key)
            && t.rows[n - 1].total == o.rows[n].total - o.rows[k].total
  {
    hide LineKey, Appended, Lines, Sheet, Shape, Refreshed, Without, UniqueKeys, Position, HasKey, IndexOf,
         NextNumber, SumLines, LineTotal;
    SheetAt(o.rows, k);
    WithoutLine(o.rows, k);
    Present(o.rows, k);
    FreshCells(o.rows, k);
  }

  lemma Present(rows: seq<Row>, k: nat)
    requires k < |rows|
    ensures HasKey(rows, rows[k].key)
  {
  }

  lemma WithoutLine(rows: seq<Row>, k: nat)
    requires Sheet(rows) && k < |rows| - 1
    ensures Shape(Without(rows, k)) && |Without(rows, k)| == |rows| - 1
    ensures |Lines(Without(rows, k))| == |rows| - 2
    ensures Position(Lines(rows), rows[k].key) == k
    ensures |rows| == 2 ==> Without(rows, k)[0].key == TOTAL
  {
    hide LineKey, Lines, LineTotal;
    LinesOfSheet(rows);
    KeyPosition(Lines(rows), k);
    RemoveKeepsShape(rows, k);
    LinesOfSheet(Without(rows, k));
  }

  /** Where nothing but the total is left, a blank line number one goes in front of it. */
  lemma BlankAfterLast(left: seq<Row>)
    requires Shape(left) && |left| == 1 && left[0].key == TOTAL
    ensures var rows := Refreshed(Appended(left));
            |rows| == 2 && rows[0] == BlankLine(1) && Lines(rows) == [LineKey(1)]
  {
    hide LineKey, NextNumber;
    FirstLine(left);
    AppendKeepsShape(left);
    RefreshMakesSheet(Appended(left));
    LinesOfSheet(Refreshed(Appended(left)));
    LineKeyIsNotTotal(1);
  }

  /** Refreshing the lines left behind changes none of them. */
  lemma FreshCells(was: seq<Row>, k: nat)
    requires Sheet(was) && k < |was| - 1 && |was| > 2 && Shape(Without(was, k))
    ensures var rows := Refreshed(Without(was, k));
            && |rows| == |was| - 1
            && (forall i :: 0 <= i < |was| - 2 ==> rows[i] == was[if i < k then i else i + 1])
            && |Lines(rows)| == |was| - 2
            && (forall i :: 0 <= i < |was| - 2 ==> Lines(rows)[i] == rows[i].key)
            && rows[|was| - 2].total == was[|was| - 1].total - was[k].total
  {
    hide LineKey, Lines, SumLines, LineTotal, Without;
    SumWithout(was, k);
    RefreshMakesSheet(Without(was, k));
    LinesOfSheet(Refreshed(Without(was, k)));
  }

  lemma {:induction false} SumWithout(rows: seq<Row>, k: nat)
    requires k < |rows| && rows[k].key != TOTAL
    ensures SumLines(Without(rows, k)) == SumLines(rows) - LineTotal(rows[k])
  {
    hide LineTotal;
    var n := |rows| - 1;
    if k < n {
      SumWithout(rows[..n], k);
      assert Without(rows, k)[..n - 1] == Without(rows[..n], k);
    } else {
      assert Without(rows, k) == rows[..n];
    }
  }

  lemma FirstLine(rows: seq<Row>)
    requires |rows| == 1 && rows[0].key == TOTAL
    ensures NextNumber(rows, 1) == 1
  {
    hide LineKey, NextNumber;
    LineKeyIsNotTotal(1);
    NextNumberIs(rows, 1);
  }

  lemma {:induction false} KeyPosition(keys: seq<string>, k: nat)
    requires k < |keys| && forall i, j :: 0 <= i < j < |keys| ==> keys[i] != keys[j]
    ensures Position(keys, keys[k]) == k
  {
    if k > 0 {
      KeyPosition(keys[1..], k - 1);
    }
  }

  // ------------------------------------------------------------ every sequence

  datatype Action = Commit(key: string, edit: Edit) | Activate(key: string) | Delete

  function Next(o: Order, a: Action, upper: string -> string): Order {
    match a
    case Commit(key, edit) => AfterEdit(o, key, edit, upper)
    case Activate(key) => if HasKey(o.rows, key) then o.(active := Some(key)) else o
    case Delete => AfterDelete(o)
  }

  function Run(o: Order, actions: seq<Action>, upper: string -> string): Order {
    if actions == [] then o else Next(Run(o, actions[..|actions| - 1], upper), actions[|actions| - 1], upper)
  }

  /** Over every sequence of edits, selections and deletions the sheet stays a sheet. */
  lemma {:induction false} SheetAlways(o: Order, actions: seq<Action>, upper: string -> string)
    requires Sheet(o.rows)
    ensures Sheet(Run(o, actions, upper).rows)
  {
    hide Sheet, AfterEdit, AfterDelete;
    if actions != [] {
      var before := Run(o, actions[..|actions| - 1], upper);
      SheetAlways(o, actions[..|actions| - 1], upper);
      match actions[|actions| - 1]
      case Commit(key, edit) => EditKeepsSheet(before, key, edit, upper);
      case Activate(_) =>
      case Delete => DeleteKeepsSheet(before);
    }
  }

  /** The two lines and the total the example starts with make a sheet. */
  lemma InitialSheet()
    ensures Sheet([Row("line-1", "A100", "Adapter", Some(2.0), Some(19.5), 39.0),
                   Row("line-2", "", "", Some(1.0), None, 0.0),
                   Row(TOTAL, "", "Total", None, None, 39.0)])
  {
    var a, b, c := Row("line-1", "A100", "Adapter", Some(2.0), Some(19.5), 39.0),
                   Row("line-2", "", "", Some(1.0), None, 0.0), Row(TOTAL, "", "Total", None, None, 39.0);
    var rows := [a, b, c];
    assert rows[..2] == [a, b] && [a, b][..1] == [a] && [a][..0] == [];
    assert a.key == LineKey(1) && b.key == LineKey(2);
    assert rows[0].key[5] == '1' && rows[1].key[5] == '2' && rows[2].key[0] == 't';
    assert LineTotal(a) == 39.0 && LineTotal(b) == 0.0;
    assert SumLines([a]) == 39.0;
    assert SumLines([a, b]) == 39.0;
  }

  /** The key a new line gets is the least line number not in use, at most one more than the rows. */
  lemma AppendedNumber(rows: seq<Row>)
    ensures var n := NextNumber(rows, 1);
            && IsNextNumber(rows, n) && n <= |rows| + 1
            && (forall m: nat :: IsNextNumber(rows, m) ==> m == n)
  {
    hide LineKey, HasKey;
  }
}
