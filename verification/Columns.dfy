/**
 Moving columns of the data grid: among the visible ones past the hidden ones
 (examples/tui/59_widgets_datagrid_adapters.py) and among all of them
 (examples/tui/61_widgets_datagrid_column_chooser.py), both by the grid's `move_column`
 (src/loushang/tui/ui_parts/widgets/data_grid.py).
 */
module Columns {

  datatype Column = Column(key: string, hidden: bool)

  datatype Status = NotVisible | AtEdge | WasMoved | Unchanged

  datatype Place = Before(key: string) | After(key: string)

  function Keys(cs: seq<Column>): (ks: seq<string>)
    ensures |ks| == |cs| && forall i :: 0 <= i < |cs| ==> ks[i] == cs[i].key
  {
    seq(|cs|, i requires 0 <= i < |cs| => cs[i].key)
  }

  function Shown(cs: seq<Column>, hidden: bool): seq<Column> {
    if cs == [] then []
    else Shown(cs[..|cs| - 1], hidden) + if cs[|cs| - 1].hidden == hidden then [cs[|cs| - 1]] else []
  }

  /** The columns on screen, in order. */
  function Visible(cs: seq<Column>): seq<Column> {
    Shown(cs, false)
  }

  function Hidden(cs: seq<Column>): seq<Column> {
    Shown(cs, true)
  }

  predicate Distinct(cs: seq<Column>) {
    forall i, j :: 0 <= i < j < |cs| ==> cs[i].key != cs[j].key
  }

  /** `list.index` over the keys. */
  function IndexOf(cs: seq<Column>, key: string): (i: nat)
    requires Has(cs, key)
    ensures i < |cs| && cs[i].key == key && forall j :: 0 <= j < i ==> cs[j].key != key
  {
    if cs[0].key == key then 0 else assert cs == [cs[0]] + cs[1..]; IndexOf(cs[1..], key) + 1
  }

  predicate Has(cs: seq<Column>, key: string) {
    exists c :: c in cs && c.key == key
  }

  function Remove(cs: seq<Column>, i: nat): seq<Column>
    requires i < |cs|
  {
    cs[..i] + cs[i + 1..]
  }

  function Insert(cs: seq<Column>, i: nat, c: Column): seq<Column>
    requires i <= |cs|
  {
    cs[..i] + [c] + cs[i..]
  }

  /** Column i taken out and put where it becomes column j. */
  function Relocated(cs: seq<Column>, i: nat, j: nat): seq<Column>
    requires i < |cs| && j < |cs|
  {
    Insert(Remove(cs, i), j, cs[i])
  }

  function Clamp(i: int, n: nat): nat {
    if n - 1 < i then (if n - 1 < 0 then 0 else n - 1) else if i < 0 then 0 else i
  }

  // ------------------------------------------------------------------- sequences

  lemma {:induction false} ShownConcat(a: seq<Column>, b: seq<Column>, hidden: bool)
    ensures Shown(a + b, hidden) == Shown(a, hidden) + Shown(b, hidden)
  {
    if b == [] {
      assert a + b == a;
    } else {
      var front := b[..|b| - 1];
      assert (a + b)[..|a + b| - 1] == a + front;
      ShownConcat(a, front, hidden);
    }
  }

  lemma Single(c: Column, hidden: bool)
    ensures Shown([c], hidden) == if c.hidden == hidden then [c] else []
  {
    assert [c][..0] == [];
  }

  /** Where visible column q sits among all columns. */
  lemma {:induction false} Origin(cs: seq<Column>, q: nat) returns (t: nat)
    requires q < |Visible(cs)|
    ensures t < |cs| && !cs[t].hidden && cs[t] == Visible(cs)[q] && |Visible(cs[..t])| == q
  {
    var last := |cs| - 1;
    if q < |Visible(cs[..last])| {
      t := Origin(cs[..last], q);
      assert cs[..last][..t] == cs[..t];
    } else {
      t := last;
    }
  }

  lemma Ordered(cs: seq<Column>, s: nat, t: nat)
    requires s < |cs| && t < |cs| && !cs[s].hidden && !cs[t].hidden
    ensures |Visible(cs[..s])| < |Visible(cs[..t])| <==> s < t
  {
    if s < t {
      OrderedUp(cs, s, t);
    } else if t < s {
      OrderedUp(cs, t, s);
    }
  }

  lemma OrderedUp(cs: seq<Column>, s: nat, t: nat)
    requires s < t < |cs| && !cs[s].hidden
    ensures |Visible(cs[..s])| < |Visible(cs[..t])|
  {
    assert cs[..t] == cs[..s] + ([cs[s]] + cs[s + 1..t]);
    ShownConcat(cs[..s], [cs[s]] + cs[s + 1..t], false);
    ShownConcat([cs[s]], cs[s + 1..t], false);
    Single(cs[s], false);
  }

  lemma Found(cs: seq<Column>, i: nat)
    requires Distinct(cs) && i < |cs|
    ensures Has(cs, cs[i].key) && IndexOf(cs, cs[i].key) == i
  {
    assert cs[i] in cs;
  }

  lemma {:induction false} ShownIn(cs: seq<Column>, c: Column, hidden: bool)
    ensures c in Shown(cs, hidden) <==> c in cs && c.hidden == hidden
  {
    if cs != [] {
      ShownIn(cs[..|cs| - 1], c, hidden);
      assert cs == cs[..|cs| - 1] + [cs[|cs| - 1]];
    }
  }

  lemma {:induction false} ShownDistinct(cs: seq<Column>, hidden: bool)
    requires Distinct(cs)
    ensures Distinct(Shown(cs, hidden))
  {
    if cs != [] {
      var front := cs[..|cs| - 1];
      ShownDistinct(front, hidden);
      forall i | 0 <= i < |Shown(front, hidden)|
        ensures Shown(front, hidden)[i].key != cs[|cs| - 1].key
      {
        ShownIn(front, Shown(front, hidden)[i], hidden);
      }
    }
  }

  lemma RelocatedAt(cs: seq<Column>, i: nat, j: nat)
    requires i < |cs| && j < |cs|
    ensures |Relocated(cs, i, j)| == |cs|
    ensures forall k :: 0 <= k < |cs| ==> Relocated(cs, i, j)[k] == cs[CameFrom(k, i, j)]
  {
  }

  /** The place column k of a relocated list had before. */
  function CameFrom(k: int, i: int, j: int): int {
    if k == j then i else if i <= k < j then k + 1 else if j < k <= i then k - 1 else k
  }

  lemma RelocatedKeeps(cs: seq<Column>, i: nat, j: nat)
    requires i < |cs| && j < |cs|
    ensures |Relocated(cs, i, j)| == |cs| && Relocated(cs, i, j)[j] == cs[i]
    ensures multiset(Relocated(cs, i, j)) == multiset(cs)
    ensures Distinct(cs) ==> Distinct(Relocated(cs, i, j))
  {
    hide Relocated;
    RelocatedAt(cs, i, j);
    RelocatedMultiset(cs, i, j);
    if Distinct(cs) {
      forall k, l | 0 <= k < l < |cs|
        ensures Relocated(cs, i, j)[k].key != Relocated(cs, i, j)[l].key
      {
        var x, y := CameFrom(k, i, j), CameFrom(l, i, j);
        assert x != y;
        if x < y {
          assert cs[x].key != cs[y].key;
        } else {
          assert cs[y].key != cs[x].key;
        }
      }
    }
  }

  lemma RelocatedMultiset(cs: seq<Column>, i: nat, j: nat)
    requires i < |cs| && j < |cs|
    ensures multiset(Relocated(cs, i, j)) == multiset(cs)
  {
    hide Distinct;
    var rest := Remove(cs, i);
    assert cs == cs[..i] + [cs[i]] + cs[i + 1..];
    assert multiset(cs) == multiset(cs[..i] + cs[i + 1..]) + multiset{cs[i]};
    assert rest == rest[..j] + rest[j..];
  }

  /** Taking a column from j back to i undoes taking it from i to j. */
  lemma RelocatedBack(cs: seq<Column>, i: nat, j: nat)
    requires i < |cs| && j < |cs|
    ensures |Relocated(cs, i, j)| == |cs| && Relocated(Relocated(cs, i, j), j, i) == cs
  {
    assert Remove(Relocated(cs, i, j), j) == Remove(cs, i);
    assert Relocated(cs, i, j)[j] == cs[i];
  }

  /** A move by one place swaps two neighbours and touches no other column. */
  lemma AdjacentSwap(cs: seq<Column>, i: nat, j: nat)
    requires i < |cs| && j < |cs| && (j == i + 1 || i == j + 1)
    ensures Relocated(cs, i, j) == cs[i := cs[j]][j := cs[i]]
  {
  }

  // ------------------------------------------------------------------ move_column

  /** `DataGrid.move_column` with a neighbour named. */
  function Moved(cs: seq<Column>, key: string, place: Place): seq<Column> {
    if !Has(cs, key) || place.key == key || !Has(cs, place.key) then cs
    else
      var i := IndexOf(cs, key);
      var rest := Remove(cs, i);
      Remains(cs, i, place.key);
      var at := IndexOf(rest, place.key);
      Insert(rest, if place.Before? then at else at + 1, cs[i])
  }

  lemma Remains(cs: seq<Column>, i: nat, key: string)
    requires i < |cs| && cs[i].key != key && Has(cs, key)
    ensures Has(Remove(cs, i), key)
  {
    var c :| c in cs && c.key == key;
    var j :| 0 <= j < |cs| && cs[j] == c;
    assert Remove(cs, i)[if j < i then j else j - 1] == c;
  }

  lemma RemovedAt(cs: seq<Column>, i: nat, t: nat)
    requires Distinct(cs) && i < |cs| && t < |cs| && i != t
    ensures Has(Remove(cs, i), cs[t].key)
    ensures IndexOf(Remove(cs, i), cs[t].key) == if t < i then t else t - 1
  {
    hide IndexOf, Has;
    var rest := Remove(cs, i);
    assert forall k :: 0 <= k < |rest| ==> rest[k] == cs[if k < i then k else k + 1];
    Found(rest, if t < i then t else t - 1);
  }

  lemma MovedUnfolds(cs: seq<Column>, i: nat, t: nat)
    requires Distinct(cs) && i < |cs| && t < |cs| && i != t
    ensures Relocated(cs, i, t) == Insert(Remove(cs, i), t, cs[i]) && Relocated(cs, i, t) != cs
  {
    assert Relocated(cs, i, t)[t] == cs[i];
  }

  /** Put before an earlier column it takes that column's index; put after a later one, likewise. */
  lemma MovedIsRelocated(cs: seq<Column>, i: nat, t: nat)
    requires Distinct(cs) && i < |cs| && t < |cs| && i != t
    ensures Moved(cs, cs[i].key, if t < i then Before(cs[t].key) else After(cs[t].key)) == Relocated(cs, i, t)
    ensures Relocated(cs, i, t) != cs
  {
    hide Distinct, IndexOf, Has, Remove, Relocated;
    Found(cs, i);
    Found(cs, t);
    RemovedAt(cs, i, t);
    MovedUnfolds(cs, i, t);
  }

  /** A visible column carried from place i to t past whatever is hidden in between: on screen it
      goes from its visible place to the target's, and the hidden columns keep their order. */
  lemma VisibleRelocated(cs: seq<Column>, i: nat, t: nat)
    requires i < |cs| && t < |cs| && i != t && !cs[i].hidden && !cs[t].hidden
    ensures |Visible(cs[..i])| < |Visible(cs)| && |Visible(cs[..t])| < |Visible(cs)|
    ensures Visible(Relocated(cs, i, t)) == Relocated(Visible(cs), |Visible(cs[..i])|, |Visible(cs[..t])|)
    ensures Hidden(Relocated(cs, i, t)) == Hidden(cs)
  {
    hide Shown, Relocated;
    if t < i {
      var a, b, c := cs[..t], cs[t + 1..i], cs[i + 1..];
      assert cs == a + [cs[t]] + b + [cs[i]] + c;
      assert cs[..i] == a + [cs[t]] + b;
      CarriedUp(a, cs[t], b, cs[i], c);
    } else {
      var a, b, c := cs[..i], cs[i + 1..t], cs[t + 1..];
      assert cs == a + [cs[i]] + b + [cs[t]] + c;
      assert cs[..t] == a + [cs[i]] + b;
      CarriedDown(a, cs[i], b, cs[t], c);
    }
  }

  lemma CarriedUp(a: seq<Column>, target: Column, b: seq<Column>, moved: Column, c: seq<Column>)
    requires !target.hidden && !moved.hidden
    ensures var cs := a + [target] + b + [moved] + c;
            var p := |Visible(a + [target] + b)|;
            && p < |Visible(cs)| && |Visible(a)| < |Visible(cs)|
            && Visible(Relocated(cs, |a| + 1 + |b|, |a|)) == Relocated(Visible(cs), p, |Visible(a)|)
            && Hidden(Relocated(cs, |a| + 1 + |b|, |a|)) == Hidden(cs)
  {
    hide Shown;
    RelocatedUp(a, target, b, moved, c);
    RelocatedUp(Visible(a), target, Visible(b), moved, Visible(c));
    Parts(a, [target], b, [moved], c);
    Parts(a, [moved], [target], b, c);
    Pair(a, target, b);
    Units(target, moved);
  }

  lemma CarriedDown(a: seq<Column>, moved: Column, b: seq<Column>, target: Column, c: seq<Column>)
    requires !target.hidden && !moved.hidden
    ensures var cs := a + [moved] + b + [target] + c;
            var q := |Visible(a + [moved] + b)|;
            && q < |Visible(cs)| && |Visible(a)| < |Visible(cs)|
            && Visible(Relocated(cs, |a|, |a| + 1 + |b|)) == Relocated(Visible(cs), |Visible(a)|, q)
            && Hidden(Relocated(cs, |a|, |a| + 1 + |b|)) == Hidden(cs)
  {
    hide Shown;
    RelocatedDown(a, moved, b, target, c);
    RelocatedDown(Visible(a), moved, Visible(b), target, Visible(c));
    Parts(a, [moved], b, [target], c);
    Parts(a, b, [target], [moved], c);
    Pair(a, moved, b);
    Units(target, moved);
  }

  lemma RelocatedUp(a: seq<Column>, target: Column, b: seq<Column>, moved: Column, c: seq<Column>)
    ensures Relocated(a + [target] + b + [moved] + c, |a| + 1 + |b|, |a|) == a + [moved] + [target] + b + c
  {
    assert Remove(a + [target] + b + [moved] + c, |a| + 1 + |b|) == a + ([target] + b + c);
  }

  lemma RelocatedDown(a: seq<Column>, moved: Column, b: seq<Column>, target: Column, c: seq<Column>)
    ensures Relocated(a + [moved] + b + [target] + c, |a|, |a| + 1 + |b|) == a + b + [target] + [moved] + c
  {
    assert Remove(a + [moved] + b + [target] + c, |a|) == (a + b + [target]) + c;
  }

  lemma Pair(a: seq<Column>, x: Column, b: seq<Column>)
    requires !x.hidden
    ensures Visible(a + [x] + b) == Visible(a) + [x] + Visible(b)
  {
    ShownConcat(a + [x], b, false);
    ShownConcat(a, [x], false);
    Single(x, false);
  }

  lemma Units(x: Column, y: Column)
    ensures forall hidden :: Shown([x], hidden) == (if x.hidden == hidden then [x] else [])
                          && Shown([y], hidden) == (if y.hidden == hidden then [y] else [])
  {
    Single(x, true);
    Single(x, false);
    Single(y, true);
    Single(y, false);
  }

  lemma Parts(a: seq<Column>, b: seq<Column>, c: seq<Column>, d: seq<Column>, e: seq<Column>)
    ensures forall hidden :: Shown(a + b + c + d + e, hidden)
              == Shown(a, hidden) + Shown(b, hidden) + Shown(c, hidden) + Shown(d, hidden) + Shown(e, hidden)
  {
    forall hidden ensures Shown(a + b + c + d + e, hidden)
              == Shown(a, hidden) + Shown(b, hidden) + Shown(c, hidden) + Shown(d, hidden) + Shown(e, hidden)
    {
      ShownConcat(a + b + c + d, e, hidden);
      ShownConcat(a + b + c, d, hidden);
      ShownConcat(a + b, c, hidden);
      ShownConcat(a, b, hidden);
    }
  }

  // ---------------------------------------------------------------- the two movers

  class ColumnGrid {
    var columns: seq<Column>

    constructor (cs: seq<Column>)
      requires Distinct(cs)
      ensures columns == cs
    {
      columns := cs;
    }

    method MoveColumn(key: string, place: Place) returns (moved: bool)
      modifies this
      ensures columns == Moved(old(columns), key, place)
      ensures moved <==> columns != old(columns)
    {
      if !Has(columns, key) || place.key == key || !Has(columns, place.key) {
        return false;
      }
      var i := IndexOf(columns, key);
      var rest := Remove(columns, i);
      Remains(columns, i, place.key);
      var at := IndexOf(rest, place.key);
      var next := Insert(rest, if place.Before? then at else at + 1, columns[i]);
      moved := next != columns;
      columns := next;
    }

    /** `_move_price_column`, for whichever column: on screen it moves by delta, stopping at the
        edges, and the hidden columns keep their order among themselves. */
    method MoveVisible(key: string, delta: int) returns (status: Status)
      requires Distinct(columns)
      modifies this
      ensures Distinct(columns) && multiset(columns) == multiset(old(columns))
      ensures Hidden(columns) == Hidden(old(columns))
      ensures var was := Visible(old(columns));
              if !Has(was, key) then columns == old(columns) && status == NotVisible
              else
                var p := IndexOf(was, key);
                var q := if p + delta < 0 then 0 else if p + delta >= |was| then |was| - 1 else p + delta;
                && 0 <= q < |was|
                && Visible(columns) == Relocated(was, p, q)
                && (p == q ==> columns == old(columns) && status == AtEdge)
                && (p != q ==> columns != old(columns) && status == WasMoved)
    {
      hide Shown, Relocated, Moved, Hidden;
      var visible := Visible(columns);
      if !Has(visible, key) {
        return NotVisible;
      }
      var position := IndexOf(visible, key);
      var next := Clamp(position + delta, |visible|);
      if next == position {
        RelocatedToItself(visible, position);
        return AtEdge;
      }
      ghost var i := Origin(columns, position);
      ghost var t := Origin(columns, next);
      Ordered(columns, i, t);
      Ordered(columns, t, i);
      MovedIsRelocated(columns, i, t);
      VisibleRelocated(columns, i, t);
      RelocatedKeeps(columns, i, t);
      var moved: bool;
      if next < position {
        moved := MoveColumn(key, Before(visible[next].key));
      } else {
        moved := MoveColumn(key, After(visible[next].key));
      }
      status := if moved then WasMoved else Unchanged;
    }

    /** A move and the opposite one: what was on screen is restored exactly when the first was not cut
        short, or ran from one edge to the other; the hidden columns are as they were in any case. */
    method MoveThereAndBack(key: string, delta: int)
      requires Distinct(columns)
      modifies this
      ensures Distinct(columns) && multiset(columns) == multiset(old(columns)) && Hidden(columns) == Hidden(old(columns))
      ensures var was := Visible(old(columns));
              if !Has(was, key) then columns == old(columns)
              else
                var n, p := |was|, IndexOf(was, key);
                Visible(columns) == was <==> 0 <= p + delta < n || (p == 0 && delta > 0) || (p == n - 1 && delta < 0)
    {
      hide Distinct, Shown, Has, IndexOf, Relocated;
      ghost var was := Visible(columns);
      ShownDistinct(columns, false);
      if Has(was, key) {
        VisibleMoveUndone(was, key, delta);
      }
      var there := MoveVisible(key, delta);
      var back := MoveVisible(key, -delta);
    }

    /** `_move_column`: one place up or down among all columns, hidden or not. */
    method MoveAmongAll(key: string, up: bool) returns (moved: bool)
      requires Distinct(columns)
      modifies this
      ensures Distinct(columns) && multiset(columns) == multiset(old(columns))
      ensures columns == Stepped(old(columns), key, up)
      ensures moved <==> columns != old(columns)
      ensures moved <==> Has(old(columns), key) && IndexOf(old(columns), key) != if up then 0 else |columns| - 1
    {
      if !Has(columns, key) {
        return false;
      }
      var position := IndexOf(columns, key);
      var delta: int := if up then -1 else 1;
      var next := Clamp(position + delta, |columns|);
      if next == position {
        return false;
      }
      MovedIsRelocated(columns, position, next);
      RelocatedKeeps(columns, position, next);
      AdjacentSwap(columns, position, next);
      if next < position {
        moved := MoveColumn(key, Before(columns[next].key));
      } else {
        moved := MoveColumn(key, After(columns[next].key));
      }
    }
  }

  /** One step up or down: a swap with that neighbour, or nothing at the edge. */
  function Stepped(cs: seq<Column>, key: string, up: bool): seq<Column> {
    if !Has(cs, key) then cs
    else
      var p := IndexOf(cs, key);
      if up then (if p == 0 then cs else cs[p := cs[p - 1]][p - 1 := cs[p]])
      else (if p == |cs| - 1 then cs else cs[p := cs[p + 1]][p + 1 := cs[p]])
  }

  lemma SteppedFound(cs: seq<Column>, p: nat, q: nat)
    requires Distinct(cs) && p < |cs| && q < |cs| && (q == p + 1 || p == q + 1)
    ensures var after := cs[p := cs[q]][q := cs[p]];
            && Distinct(after) && Has(after, cs[p].key) && IndexOf(after, cs[p].key) == q
            && Relocated(cs, p, q) == after
  {
    AdjacentSwap(cs, p, q);
    RelocatedKeeps(cs, p, q);
    Found(Relocated(cs, p, q), q);
  }

  lemma SwappedTwice(cs: seq<Column>, p: nat, q: nat)
    requires p < |cs| && q < |cs| && p != q
    ensures var after := cs[p := cs[q]][q := cs[p]];
            |after| == |cs| && after[q := after[p]][p := after[q]] == cs
  {
  }

  /** A step that moved is undone by the opposite one, on the full order. */
  lemma StepUndone(cs: seq<Column>, key: string, up: bool)
    requires Distinct(cs) && Stepped(cs, key, up) != cs
    ensures Stepped(Stepped(cs, key, up), key, !up) == cs
  {
    hide Distinct, IndexOf, Relocated;
    var p := IndexOf(cs, key);
    var q := if up then p - 1 else p + 1;
    SteppedFound(cs, p, q);
    SwappedTwice(cs, p, q);
  }

  /** A visible-order move by any delta is undone, on the visible order, by the opposite one exactly
      when it was not cut short, or ran from one edge to the other. */
  lemma VisibleMoveUndone(visible: seq<Column>, key: string, delta: int)
    requires Distinct(visible) && Has(visible, key)
    ensures var n, p := |visible|, IndexOf(visible, key);
            var q := Clamp(p + delta, n);
            var after := Relocated(visible, p, q);
            && |after| == n && Has(after, key) && IndexOf(after, key) == q
            && (Relocated(after, q, Clamp(q - delta, n)) == visible <==>
                0 <= p + delta < n || (p == 0 && delta > 0) || (p == n - 1 && delta < 0))
  {
    hide Distinct, IndexOf, Relocated, Has;
    var n, p := |visible|, IndexOf(visible, key);
    var q := Clamp(p + delta, n);
    var after := Relocated(visible, p, q);
    RelocatedBack(visible, p, q);
    RelocatedFound(visible, p, q);
    RelocatedFound(after, q, Clamp(q - delta, n));
    ClampedBack(p, delta, n);
  }

  lemma ClampedBack(p: nat, delta: int, n: nat)
    requires p < n
    ensures Clamp(Clamp(p + delta, n) - delta, n) == p
            <==> 0 <= p + delta < n || (p == 0 && delta > 0) || (p == n - 1 && delta < 0)
  {
  }

  function SteppedTimes(cs: seq<Column>, key: string, n: nat): seq<Column> {
    if n == 0 then cs else Stepped(SteppedTimes(cs, key, n - 1), key, true)
  }

  /** n steps up, n at most the column's position, put it n places earlier and slide the columns
      it passed down by one; at n equal to the position it is in front and no step moves it on. */
  lemma {:induction false} StepsToFront(cs: seq<Column>, key: string, n: nat)
    requires Distinct(cs) && Has(cs, key) && n <= IndexOf(cs, key)
    ensures var p := IndexOf(cs, key);
            var after := SteppedTimes(cs, key, n);
            && after == Relocated(cs, p, p - n)
            && Has(after, key) && IndexOf(after, key) == p - n
            && (Stepped(after, key, true) == after <==> n == p)
  {
    hide Distinct, Relocated, IndexOf, Stepped;
    var p := IndexOf(cs, key);
    RelocatedFound(cs, p, p - n);
    if n > 0 {
      StepsToFront(cs, key, n - 1);
      StepFurther(cs, p, p - n);
    } else {
      RelocatedToItself(cs, p);
    }
    if n < p {
      StepFurther(cs, p, p - n - 1);
    } else {
      AtTheFront(Relocated(cs, p, 0), key);
    }
  }

  lemma AtTheFront(cs: seq<Column>, key: string)
    requires Has(cs, key) && IndexOf(cs, key) == 0
    ensures Stepped(cs, key, true) == cs
  {
  }

  lemma RelocatedToItself(cs: seq<Column>, p: nat)
    requires p < |cs|
    ensures Relocated(cs, p, p) == cs
  {
  }

  lemma RelocatedFound(cs: seq<Column>, p: nat, m: nat)
    requires Distinct(cs) && p < |cs| && m < |cs|
    ensures Distinct(Relocated(cs, p, m)) && Has(Relocated(cs, p, m), cs[p].key)
    ensures IndexOf(Relocated(cs, p, m), cs[p].key) == m
  {
    hide Distinct, Relocated, IndexOf;
    RelocatedKeeps(cs, p, m);
    Found(Relocated(cs, p, m), m);
  }

  /** From place m + 1 one step up leads to place m. */
  lemma StepFurther(cs: seq<Column>, p: nat, m: nat)
    requires Distinct(cs) && m < p < |cs|
    ensures Stepped(Relocated(cs, p, m + 1), cs[p].key, true) == Relocated(cs, p, m) != Relocated(cs, p, m + 1)
  {
    hide Distinct, Relocated, IndexOf;
    RelocatedFound(cs, p, m + 1);
    RelocatedFound(cs, p, m);
    RelocatedAt(cs, p, m + 1);
    RelocatedAt(cs, p, m);
    var was, now := Relocated(cs, p, m + 1), Relocated(cs, p, m);
    assert was[m + 1 := was[m]][m := was[m + 1]] == now;
  }
}
