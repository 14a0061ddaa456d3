/**
 Paging over the large data grid of examples/tui/60_widgets_datagrid_large_dataset.py. The page
 is not stored: it is read off the active row, and going to a page means activating a row. The
 grid's own `activate_row` (src/loushang/tui/ui_parts/widgets/data_grid.py) answers false for
 the row that is active already, which the page search takes for a refusal.
 */
module Paging {
  import opened Options

  function Max(a: int, b: int): int {
    if a < b then b else a
  }

  function Min(a: int, b: int): int {
    if a < b then a else b
  }

  /** `ceil(n / d)` over the integers: the least multiple of d that reaches n. */
  function CeilDiv(n: int, d: int): int
    requires d > 0
  {
    -((-n) / d)
  }

  function TotalPages(n: nat, size: int): int {
    Max(1, CeilDiv(n, Max(1, size)))
  }

  function PageOf(row: int, size: int): int {
    row / Max(1, size) + 1
  }

  function Clamp(page: int, total: int): int {
    Max(1, Min(total, page))
  }

  /** The footer's "Rows start-end". */
  function FooterStart(n: nat, size: int, page: int): int {
    if n == 0 then 0 else (page - 1) * size + 1
  }

  function FooterEnd(n: nat, size: int, page: int): int {
    Min(n, page * size)
  }

  // --------------------------------------------------------------- arithmetic

  lemma Quotient(a: int, d: int, q: int)
    requires d > 0 && q * d <= a < (q + 1) * d
    ensures a / d == q
  {
    var r := a / d;
    assert r * d <= a < (r + 1) * d;
    if r < q {
      Scaled(r + 1, q, d);
      assert false;
    } else if q < r {
      Scaled(q + 1, r, d);
      assert false;
    }
  }

  lemma Scaled(a: int, b: int, d: int)
    requires a <= b && d >= 0
    ensures a * d <= b * d
  {
  }

  lemma CeilBounds(n: int, d: int)
    requires d > 0
    ensures (CeilDiv(n, d) - 1) * d < n <= CeilDiv(n, d) * d
  {
    var q := (-n) / d;
    assert q * d <= -n < (q + 1) * d;
    assert (q + 1) * d == q * d + d;
    assert (-q - 1) * d == -(q * d) - d;
    assert (-q) * d == -(q * d);
  }

  lemma LastPage(n: nat, size: int)
    requires n > 0 && size >= 1
    ensures TotalPages(n, size) == CeilDiv(n, size) == PageOf(n - 1, size)
  {
    CeilBounds(n, size);
    Quotient(n - 1, size, CeilDiv(n, size) - 1);
  }

  lemma PageBounds(row: nat, size: int)
    requires size >= 1
    ensures (PageOf(row, size) - 1) * size <= row < PageOf(row, size) * size
    ensures PageOf(row, size) >= 1
  {
    QuotientBounds(row, size);
  }

  lemma QuotientBounds(a: nat, d: int)
    requires d >= 1
    ensures a / d >= 0 && (a / d) * d <= a < (a / d + 1) * d
  {
    var q, r := a / d, a % d;
    assert a == q * d + r;
    assert (q + 1) * d == q * d + d;
  }

  /** The pages cut the rows: page p shows exactly the rows whose page is p, no range is empty, the
      first starts at row 1, the last ends at row n, and each starts right after the one before. */
  lemma FootersTile(n: nat, size: int)
    requires n > 0 && size >= 1
    ensures FooterStart(n, size, 1) == 1 && FooterEnd(n, size, TotalPages(n, size)) == n
    ensures forall p :: 1 <= p <= TotalPages(n, size) ==> 1 <= FooterStart(n, size, p) <= FooterEnd(n, size, p) <= n
    ensures forall p :: 1 <= p < TotalPages(n, size) ==> FooterStart(n, size, p + 1) == FooterEnd(n, size, p) + 1
    ensures forall p, row :: 1 <= p <= TotalPages(n, size) && 0 <= row < n ==>
              (FooterStart(n, size, p) <= row + 1 <= FooterEnd(n, size, p) <==> PageOf(row, size) == p)
  {
    hide CeilDiv;
    LastPage(n, size);
    CeilBounds(n, size);
    var total := TotalPages(n, size);
    forall p | 1 <= p <= total
      ensures 1 <= FooterStart(n, size, p) <= FooterEnd(n, size, p) <= n
      ensures p < total ==> FooterStart(n, size, p + 1) == FooterEnd(n, size, p) + 1
    {
      Scaled(0, p - 1, size);
      Scaled(p - 1, total - 1, size);
      assert p * size == (p - 1) * size + size;
      if p < total {
        Scaled(p, total - 1, size);
      }
    }
    forall p, row | 1 <= p <= total && 0 <= row < n
      ensures FooterStart(n, size, p) <= row + 1 <= FooterEnd(n, size, p) <==> PageOf(row, size) == p
    {
      PageBounds(row, size);
      if (p - 1) * size <= row < p * size {
        Quotient(row, size, p - 1);
      }
    }
  }

  /** With no rows in view the footer shows none, on page 1 of 1. */
  lemma FooterOfNone(size: int)
    requires size >= 1
    ensures TotalPages(0, size) == PageOf(0, size) == 1 && FooterStart(0, size, 1) == FooterEnd(0, size, 1) == 0
  {
    NoPages(size);
  }

  /** Whatever row is active, its page is one of 1..total. */
  lemma PageInRange(n: nat, size: int, row: nat)
    requires row < n || (n == 0 && row == 0)
    ensures 1 <= PageOf(row, size) <= TotalPages(n, size)
  {
    hide CeilDiv;
    var d := Max(1, size);
    PageBounds(row, d);
    if n > 0 {
      LastPage(n, d);
      PageBounds(n - 1, d);
      if PageOf(n - 1, d) < PageOf(row, d) {
        Scaled(PageOf(n - 1, d), PageOf(row, d) - 1, d);
        assert false;
      }
    }
  }

  // ----------------------------------------------------------- going to a page

  /** Where a search for a row to activate ends: at the page's first row, or one further when
      that row is active already. */
  function Landing(n: nat, size: int, active: nat, page: int): int
    requires size >= 1
  {
    var first := (Clamp(page, TotalPages(n, size)) - 1) * size;
    if active == first && first + 1 < n then first + 1 else first
  }

  lemma PageStart(n: nat, size: int, page: int)
    requires n > 0 && size >= 1 && 1 <= page <= TotalPages(n, size)
    ensures 0 <= (page - 1) * size < n && PageOf((page - 1) * size, size) == page
  {
    FootersTile(n, size);
    assert FooterStart(n, size, page) <= FooterEnd(n, size, page);
  }

  lemma TotalPositive(n: nat, size: int)
    ensures TotalPages(n, size) >= 1
  {
  }

  /** Going to a page makes it the current one, except where pages hold a single row and its row
      is active already and not the last: then the next page becomes current. */
  lemma GoToMakesCurrent(n: nat, size: int, active: nat, page: int)
    requires n > 0 && size >= 1 && active < n
    ensures 0 <= Landing(n, size, active, page) < n
    ensures var p := Clamp(page, TotalPages(n, size));
            && (PageOf(Landing(n, size, active, page), size) == p <==> !(size == 1 && active == p - 1 && p < n))
            && (size == 1 && active == p - 1 && p < n ==> PageOf(Landing(n, size, active, page), size) == p + 1)
  {
    hide TotalPages;
    TotalPositive(n, size);
    var p := Clamp(page, TotalPages(n, size));
    PageStart(n, size, p);
    var first := (p - 1) * size;
    if active == first && first + 1 < n && size > 1 {
      assert p * size == first + size;
      Quotient(first + 1, size, p - 1);
    }
  }

  /** Three rows, one a page, the first active: going to page 1 makes page 2 current. */
  lemma GoToMissesPage()
    ensures TotalPages(3, 1) == 3 && PageOf(0, 1) == 1 && PageOf(Landing(3, 1, 0, 1), 1) == 2
  {
    LastPage(3, 1);
    hide CeilDiv, TotalPages, Landing;
    GoToMakesCurrent(3, 1, 0, 1);
  }

  /** A page jump that moves lands on the first row of the page it names, however short the pages. */
  lemma JumpLands(n: nat, size: int, active: nat, page: int)
    requires n > 0 && size >= 1 && active < n
    requires 1 <= page <= TotalPages(n, size) && page != PageOf(active, size)
    ensures Landing(n, size, active, page) == (page - 1) * size
    ensures PageOf(Landing(n, size, active, page), size) == page
  {
    hide TotalPages;
    PageStart(n, size, page);
  }

  /** The page after a jump by `delta`, and the page after that jump is taken back. */
  function Jumped(page: int, delta: int, total: int): int {
    Clamp(page + delta, total)
  }

  /** A jump that moved is undone by the opposite jump exactly when it stayed inside the grid, or
      ran from one end to the other. */
  lemma JumpUndone(page: int, delta: int, total: int)
    requires 1 <= page <= total && Jumped(page, delta, total) != page
    ensures Jumped(Jumped(page, delta, total), -delta, total) == page
            <==> (1 <= page + delta <= total || (page == 1 && delta > 0) || (page == total && delta < 0))
  {
  }

  /** From page 2 of 3 three pages on, cut short at page 3, and three back: page 1. */
  lemma JumpNotUndone()
    ensures Jumped(2, 3, 3) == 3 && Jumped(3, -3, 3) == 1
  {
  }

  // -------------------------------------------------------------- the application

  predicate Distinct(keys: seq<string>) {
    forall i, j :: 0 <= i < j < |keys| ==> keys[i] != keys[j]
  }

  class LargeDataGrid {
    var view: seq<string>
    var active: Option<string>
    var pageSize: int

    /** The active row is one of the rows in view, and there is one unless the view is empty. */
    ghost predicate Valid()
      reads this
    {
      && Distinct(view)
      && pageSize >= 1
      && (active.Some? <==> view != [])
      && (active.Some? ==> active.value in view)
    }

    /** `_active_row_index`. */
    function ActiveIndex(): (i: nat)
      requires Valid()
      reads this
      ensures view != [] ==> i < |view| && active == Some(view[i])
      ensures view == [] ==> i == 0
    {
      if active.None? then 0 else IndexOf(view, active.value)
    }

    function CurrentPage(): int
      requires Valid()
      reads this
    {
      PageOf(ActiveIndex(), pageSize)
    }

    lemma ActiveAt(i: nat)
      requires Valid() && i < |view| && active == Some(view[i])
      ensures ActiveIndex() == i
    {
    }

    constructor (keys: seq<string>)
      requires Distinct(keys)
      ensures Valid() && view == keys && pageSize == 1
    {
      view := keys;
      active := if keys == [] then None else Some(keys[0]);
      pageSize := 1;
    }

    /** Drawing at a height: the rows left for the grid, less its header line, make the page. */
    method Resize(height: int)
      requires Valid()
      modifies this`pageSize
      ensures Valid() && (pageSize == if height <= 0 then old(pageSize) else Max(1, height - 9))
    {
      if height > 0 {
        pageSize := Max(1, Max(1, height - 8) - 1);
      }
    }

    /** The grid's `activate_row`, in row mode with no cell being edited. */
    method ActivateRow(key: string) returns (changed: bool)
      modifies this`active
      ensures changed == (key in view && active != old(active))
      ensures active == if key in view then Some(key) else old(active)
    {
      if key !in view {
        return false;
      }
      changed := active != Some(key);
      active := Some(key);
    }

    /** The grid's repair after a change of view: the active row stays if it is still shown, else
        the first row shown takes its place. */
    method ChangeView(next: seq<string>)
      requires Distinct(next)
      requires pageSize >= 1
      modifies this`view, this`active
      ensures Valid() && view == next
      ensures old(active).Some? && old(active).value in next ==> active == old(active)
      ensures !(old(active).Some? && old(active).value in next) && next != [] ==> active == Some(next[0])
    {
      view := next;
      if active.None? || active.value !in next {
        active := if next == [] then None else Some(next[0]);
      }
    }

    /** `_repair_filtered_page`. */
    method RepairFilteredPage()
      modifies this`active
      ensures active == if (old(active).Some? && old(active).value in view) || view == [] then old(active) else Some(view[0])
    {
      if active.Some? && active.value in view {
        return;
      }
      for i := 0 to |view|
        invariant i == 0 && active == old(active)
      {
        var changed := ActivateRow(view[i]);
        if changed {
          return;
        }
      }
    }

    /** Setting the search text, then the predicate: the view changes twice, and the page shown
        afterwards is one of the pages there are. */
    method ApplyFilters(searched: seq<string>, filtered: seq<string>)
      requires Valid() && Distinct(searched) && Distinct(filtered)
      modifies this`view, this`active
      ensures Valid() && view == filtered
      ensures 1 <= CurrentPage() <= TotalPages(|view|, pageSize)
      ensures old(active).Some? && old(active).value in searched && old(active).value in filtered ==> active == old(active)
    {
      ChangeView(searched);
      ChangeView(filtered);
      RepairFilteredPage();
      PageInRange(|view|, pageSize, ActiveIndex());
    }

    /** `_go_to_page`. */
    method GoToPage(page: int)
      requires Valid()
      modifies this`active
      ensures Valid()
      ensures view == [] ==> active == old(active)
      ensures view != [] ==> ActiveIndex() == Landing(|view|, pageSize, old(ActiveIndex()), page)
    {
      hide TotalPages;
      TotalPositive(|view|, pageSize);
      var target := Clamp(page, TotalPages(|view|, pageSize));
      var first := (target - 1) * pageSize;
      if view == [] {
        return;
      }
      PageStart(|view|, pageSize, target);
      ghost var from := ActiveIndex();
      var i := first;
      while i < |view|
        invariant first <= i <= |view| && Valid()
        invariant active == Some(view[from])
        invariant i > first ==> from == first && i == first + 1
      {
        var changed := ActivateRow(view[i]);
        if changed {
          ActiveAt(i);
          return;
        }
        assert from == i;
        i := i + 1;
      }
      ActiveAt(from);
    }

    /** `_jump_pages`: a jump answers whether it moved; one that moved makes exactly the page it
        aimed at current, on its first row. */
    method JumpPages(delta: int) returns (moved: bool)
      requires Valid()
      modifies this`active
      ensures Valid()
      ensures CurrentPage() == Jumped(old(CurrentPage()), delta, TotalPages(|view|, pageSize))
      ensures moved <==> CurrentPage() != old(CurrentPage())
      ensures moved ==> ActiveIndex() == (CurrentPage() - 1) * pageSize
      ensures !moved ==> active == old(active)
    {
      hide TotalPages;
      TotalPositive(|view|, pageSize);
      ghost var row := ActiveIndex();
      PageInRange(|view|, pageSize, row);
      var page := CurrentPage();
      var next := Clamp(page + delta, TotalPages(|view|, pageSize));
      if next == page {
        return false;
      }
      if view == [] {
        NoPages(pageSize);
        assert false;
      }
      JumpLands(|view|, pageSize, row, next);
      GoToPage(next);
      moved := true;
    }
  }

  lemma NoPages(size: int)
    ensures TotalPages(0, size) == 1
  {
    assert CeilDiv(0, Max(1, size)) == 0;
  }

  function IndexOf(keys: seq<string>, key: string): (i: nat)
    requires key in keys
    ensures i < |keys| && keys[i] == key
  {
    if keys[0] == key then 0 else IndexOf(keys[1..], key) + 1
  }
}
