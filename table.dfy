/** The generic data table: its selection sequence and the toggle, select-all
    and select-none operations on it, the single expanded row, the tri-state
    header checkbox, the bulk-action toolbar, the column spans of the full-width
    rows and the page count of its pagination control. */
module FancyPantsTable {
  import opened Values
  import opened TableTypes
  import FancyPantsPagination

  // ---------------------------------------------------------------------------
  // Sequence operations behind the selection

  /** `s.indexOf(x)`: the first position holding `x`, or -1 when there is none. */
  function IndexOf<T(==)>(s: seq<T>, x: T): (i: int)
    ensures -1 <= i < |s|
    ensures i == -1 <==> x !in s
    ensures 0 <= i ==> s[i] == x && x !in s[..i]
  {
    if |s| == 0 then -1
    else if s[0] == x then 0
    else
      var j := IndexOf(s[1..], x);
      if j == -1 then -1
      else
        assert s[..j + 1] == [s[0]] + s[1..][..j];
        j + 1
  }

  /** The sequence without its element at position `i`, the rest in order. */
  function RemoveAt<T>(s: seq<T>, i: nat): seq<T>
    requires i < |s|
  {
    s[..i] + s[i + 1..]
  }

  /** The reference meaning of a click on a row's checkbox: an absent row is
      appended at the end; a present row loses its first occurrence. */
  function Toggle<T(==)>(s: seq<T>, x: T): seq<T> {
    if x in s then RemoveAt(s, IndexOf(s, x)) else s + [x]
  }

  /** No row occurs twice. */
  predicate Distinct<T(==)>(s: seq<T>) {
    forall i, j :: 0 <= i < j < |s| ==> s[i] != s[j]
  }

  /** Toggling a row that is not selected appends it and keeps every existing
      element where it was. */
  lemma ToggleAbsentAppends<T>(s: seq<T>, x: T)
    requires x !in s
    ensures |Toggle(s, x)| == |s| + 1
    ensures Toggle(s, x)[..|s|] == s && Toggle(s, x)[|s|] == x
  {
  }

  /** Toggling a selected row removes exactly its first occurrence: one fewer
      element, one fewer copy of the row, every other row kept in order. */
  lemma {:induction false} TogglePresentRemovesFirst<T>(s: seq<T>, x: T)
    requires x in s
    ensures |Toggle(s, x)| == |s| - 1
    ensures multiset(Toggle(s, x)) == multiset(s) - multiset{x}
    ensures var i := IndexOf(s, x);
      s[i] == x && x !in s[..i] && Toggle(s, x) == s[..i] + s[i + 1..]
  {
    var i := IndexOf(s, x);
    assert s == s[..i] + [s[i]] + s[i + 1..];
    assert multiset(s) == multiset(s[..i]) + multiset{x} + multiset(s[i + 1..]);
  }

  /** Toggling a row that is not selected twice restores the selection. */
  lemma {:induction false} ToggleTwiceRestores<T>(s: seq<T>, x: T)
    requires x !in s
    ensures Toggle(Toggle(s, x), x) == s
  {
    var t := s + [x];
    assert x in t;
    assert t[..|s|] == s;
    assert IndexOf(t, x) == |s|;
  }

  /** Removing one element keeps a duplicate-free sequence duplicate-free. */
  lemma DistinctRemoveAt<T>(s: seq<T>, i: nat)
    requires Distinct(s) && i < |s|
    ensures Distinct(RemoveAt(s, i))
    ensures s[i] !in RemoveAt(s, i)
  {
    var t := RemoveAt(s, i);
    forall a, b | 0 <= a < b < |t| ensures t[a] != t[b] {
      var a' := if a < i then a else a + 1;
      var b' := if b < i then b else b + 1;
      assert t[a] == s[a'] && t[b] == s[b'];
    }
    forall k | 0 <= k < |t| ensures t[k] != s[i] {
      var k' := if k < i then k else k + 1;
      assert t[k] == s[k'];
    }
  }

  /** Appending an absent element keeps a sequence duplicate-free. */
  lemma DistinctAppend<T>(s: seq<T>, x: T)
    requires Distinct(s) && x !in s
    ensures Distinct(s + [x])
  {
    var t := s + [x];
    forall a, b | 0 <= a < b < |t| ensures t[a] != t[b] {
      assert t[a] == s[a];
    }
  }

  /** On a duplicate-free selection a toggle flips the row's membership, leaves
      the membership of every other row alone and keeps it duplicate-free. */
  lemma {:induction false} ToggleFlipsMembership<T>(s: seq<T>, x: T, y: T)
    requires Distinct(s)
    ensures x in Toggle(s, x) <==> x !in s
    ensures y != x ==> (y in Toggle(s, x) <==> y in s)
    ensures Distinct(Toggle(s, x))
  {
    if x in s {
      var i := IndexOf(s, x);
      DistinctRemoveAt(s, i);
      assert s == s[..i] + [x] + s[i + 1..];
    } else {
      DistinctAppend(s, x);
    }
  }

  // ---------------------------------------------------------------------------
  // Gated rows and select-all

  /** `rows.filter((r) => r[gate])`: the rows whose gate field is truthy, in row order. */
  function GatedRows(rows: seq<Row>, gate: string): (g: seq<Row>)
    ensures |g| <= |rows|
    ensures forall r :: r in g <==> r in rows && Truthy(Field(r, gate))
    ensures forall r :: multiset(g)[r] == if Truthy(Field(r, gate)) then multiset(rows)[r] else 0
  {
    if |rows| == 0 then []
    else
      var rest := GatedRows(rows[1..], gate);
      assert rows == [rows[0]] + rows[1..];
      if Truthy(Field(rows[0], gate)) then [rows[0]] + rest else rest
  }

  /** What a change of the select-all checkbox hands to the selection setter;
      `None` when the setter is not called at all. */
  function SelectAllUpdate(checked: bool, sel: SelectionProps, rows: Option<seq<Row>>): (u: Option<seq<Row>>)
    ensures checked && HasGate(sel) && rows.Some? ==> u == Some(GatedRows(rows.value, sel.selectableGateFieldName))
    ensures checked && HasGate(sel) && rows.None? ==> u.None?
    ensures !(checked && HasGate(sel)) ==> u == Some([])
  {
    if checked && HasGate(sel) then
      match rows
      case Some(rs) => Some(GatedRows(rs, sel.selectableGateFieldName))
      case None => None
    else Some([])
  }

  /** Select-all picks exactly the gated rows: each selected row is gated and
      present, each gated row is selected. */
  lemma SelectAllSelectsExactlyGated(sel: SelectionProps, rows: seq<Row>, r: Row)
    requires HasGate(sel)
    ensures var u := SelectAllUpdate(true, sel, Some(rows));
      u.Some? && (r in u.value <==> r in rows && IsGated(sel, r))
  {
  }

  /** The filter keeps row order: filtering a concatenation filters each part,
      so the gated rows of `a` all come before those of `b`. */
  lemma {:induction false} GatedRowsAppend(a: seq<Row>, b: seq<Row>, gate: string)
    ensures GatedRows(a + b, gate) == GatedRows(a, gate) + GatedRows(b, gate)
  {
    if |a| == 0 {
      assert a + b == b;
    } else {
      assert (a + b)[0] == a[0];
      assert (a + b)[1..] == a[1..] + b;
      GatedRowsAppend(a[1..], b, gate);
    }
  }

  /** A single row is kept exactly when it is gated. */
  lemma GatedRowsSingleton(r: Row, gate: string)
    ensures GatedRows([r], gate) == if Truthy(Field(r, gate)) then [r] else []
  {
    assert [r][1..] == [];
  }

  /** A gate field that no row carries (and that is not `id`) gates every row
      out: select-all selects nothing and no row shows a checkbox. */
  lemma MissingGateFieldSelectsNothing(sel: SelectionProps, rows: seq<Row>)
    requires HasGate(sel) && sel.selectableGateFieldName != "id"
    requires forall r :: r in rows ==> sel.selectableGateFieldName !in r.fields
    ensures SelectAllUpdate(true, sel, Some(rows)) == Some([])
    ensures forall r :: r in rows ==> RowCheckbox(sel, [], r).None?
  {
  }

  // ---------------------------------------------------------------------------
  // The header checkbox

  /** `indeterminate`: some, but fewer rows are selected than there are gated rows. */
  predicate HeaderIndeterminate(selected: seq<Row>, rows: Option<seq<Row>>, gate: string) {
    |selected| > 0 && rows.Some? && |selected| < |GatedRows(rows.value, gate)|
  }

  /** `checked`: there are gated rows and as many rows are selected as there are gated rows. */
  predicate HeaderChecked(selected: seq<Row>, rows: Option<seq<Row>>, gate: string) {
    rows.Some? && |GatedRows(rows.value, gate)| > 0 && |selected| == |GatedRows(rows.value, gate)|
  }

  datatype CheckboxState = CheckboxState(checked: bool, indeterminate: bool)

  /** The header checkbox, rendered only when a gate field is given. */
  function HeaderCheckbox(sel: SelectionProps, selected: seq<Row>, rows: Option<seq<Row>>): (c: Option<CheckboxState>)
    ensures c.Some? <==> HasGate(sel)
    ensures c.Some? ==> !(c.value.checked && c.value.indeterminate)
    ensures c.Some? ==> (c.value.indeterminate <==>
      rows.Some? && 0 < |selected| < |GatedRows(rows.value, sel.selectableGateFieldName)|)
    ensures c.Some? ==> (c.value.checked <==>
      rows.Some? && 0 < |GatedRows(rows.value, sel.selectableGateFieldName)| == |selected|)
  {
    if HasGate(sel) then
      var gate := sel.selectableGateFieldName;
      Some(CheckboxState(HeaderChecked(selected, rows, gate), HeaderIndeterminate(selected, rows, gate)))
    else None
  }

  /** A duplicate-free sequence has as many distinct elements as positions. */
  lemma {:induction false} DistinctSetCard<T>(a: seq<T>)
    requires Distinct(a)
    ensures |set x | x in a| == |a|
  {
    if |a| > 0 {
      var tail := a[1..];
      assert Distinct(tail) by {
        forall i, j | 0 <= i < j < |tail| ensures tail[i] != tail[j] {
          assert tail[i] == a[i + 1] && tail[j] == a[j + 1];
        }
      }
      DistinctSetCard(tail);
      assert a[0] !in tail by {
        forall k | 0 <= k < |tail| ensures tail[k] != a[0] {
          assert tail[k] == a[k + 1];
        }
      }
      assert (set x | x in a) == (set x | x in tail) + {a[0]};
    }
  }

  /** A subset as large as its superset is the superset. */
  lemma SubsetSameCardEqual<T>(a: set<T>, b: set<T>)
    requires a <= b && |a| == |b|
    ensures a == b
  {
    assert b == a + (b - a);
    assert |b - a| == 0;
    assert b - a == {};
  }

  /** When the selection is duplicate-free and holds only gated rows of a
      duplicate-free row list, the count-based header is checked exactly when
      every gated row is selected (and there is one). */
  lemma {:induction false} HeaderCheckedIffAllGatedSelected(selected: seq<Row>, rows: seq<Row>, gate: string)
    requires Distinct(selected) && Distinct(rows)
    requires forall r :: r in selected ==> r in GatedRows(rows, gate)
    ensures HeaderChecked(selected, Some(rows), gate) <==>
      (|GatedRows(rows, gate)| > 0 && forall r :: r in GatedRows(rows, gate) ==> r in selected)
  {
    var g := GatedRows(rows, gate);
    assert Distinct(g) by {
      DistinctFilter(rows, gate);
    }
    var sg := set x | x in g;
    var ss := set x | x in selected;
    DistinctSetCard(g);
    DistinctSetCard(selected);
    assert ss <= sg;
    if |selected| == |g| {
      SubsetSameCardEqual(ss, sg);
      assert forall r :: r in g ==> r in ss;
    }
    if forall r :: r in g ==> r in selected {
      assert sg <= ss;
      assert ss == sg;
    }
  }

  /** Filtering keeps a duplicate-free list duplicate-free. */
  lemma {:induction false} DistinctFilter(rows: seq<Row>, gate: string)
    requires Distinct(rows)
    ensures Distinct(GatedRows(rows, gate))
  {
    if |rows| > 0 {
      var tail := rows[1..];
      assert Distinct(tail) by {
        forall i, j | 0 <= i < j < |tail| ensures tail[i] != tail[j] {
          assert tail[i] == rows[i + 1] && tail[j] == rows[j + 1];
        }
      }
      DistinctFilter(tail, gate);
      var rest := GatedRows(tail, gate);
      assert rows[0] !in tail by {
        forall k | 0 <= k < |tail| ensures tail[k] != rows[0] {
          assert tail[k] == rows[k + 1];
        }
      }
      assert rows[0] !in rest;
    }
  }

  /** The header compares counts, not rows: a selection of the same size that
      misses every gated row still shows the header as checked. */
  lemma HeaderCountsNotMembers()
    ensures var a := Row(NumId(1), map["ok" := Bool(true)]);
      var b := Row(NumId(2), map[]);
      HeaderChecked([b], Some([a]), "ok") && a !in [b]
  {
    var a := Row(NumId(1), map["ok" := Bool(true)]);
    var b := Row(NumId(2), map[]);
    assert GatedRows([a], "ok") == [a] by {
      assert [a][1..] == [];
    }
  }

  // ---------------------------------------------------------------------------
  // Per-row rendering decisions

  /** A row's checkbox: absent without a gate field or when the row's gate field
      is falsy, otherwise checked exactly when the row is selected. */
  function RowCheckbox(sel: SelectionProps, selected: seq<Row>, row: Row): Option<bool> {
    if HasGate(sel) && IsGated(sel, row) then Some(row in selected) else None
  }

  /** After select-all every gated row shows a checked checkbox and every other
      row shows none. */
  lemma SelectAllChecksGatedRows(sel: SelectionProps, rows: seq<Row>, r: Row)
    requires HasGate(sel) && r in rows
    ensures RowCheckbox(sel, SelectAllUpdate(true, sel, Some(rows)).value, r) ==
      if IsGated(sel, r) then Some(true) else None
  {
  }

  /** After select-none every gated row shows an unchecked checkbox. */
  lemma SelectNoneUnchecksRows(sel: SelectionProps, rows: Option<seq<Row>>, r: Row)
    requires HasGate(sel)
    ensures RowCheckbox(sel, SelectAllUpdate(false, sel, rows).value, r) ==
      if IsGated(sel, r) then Some(false) else None
  {
  }

  /** A click on a gated row of a duplicate-free selection flips that row's
      checkbox and leaves every other row's checkbox as it was. */
  lemma ClickFlipsRowCheckbox(sel: SelectionProps, selected: seq<Row>, r: Row, other: Row)
    requires HasGate(sel) && IsGated(sel, r) && Distinct(selected)
    ensures RowCheckbox(sel, Toggle(selected, r), r) == Some(r !in selected)
    ensures other != r ==> RowCheckbox(sel, Toggle(selected, r), other) == RowCheckbox(sel, selected, other)
  {
    ToggleFlipsMembership(selected, r, other);
  }

  /** A row shows its expanded content when its id is the expanded one. */
  predicate RowExpanded(expanded: Option<Id>, row: Row) {
    expanded == Some(row.id)
  }

  /** At most one id is expanded: all rows showing expanded content share it. */
  lemma ExpandedRowsShareOneId(expanded: Option<Id>, r1: Row, r2: Row)
    requires RowExpanded(expanded, r1) && RowExpanded(expanded, r2)
    ensures r1.id == r2.id && expanded == Some(r1.id)
  {
  }

  // ---------------------------------------------------------------------------
  // Column spans and the page count

  /** The number of header cells: the expand cell, the select-all cell, one cell
      per column and the actions cell, each when present. */
  function HeaderCellCount(columns: seq<Column>, hasExpand: bool, sel: SelectionProps, hasActions: bool): nat {
    (if hasExpand then 1 else 0) + (if HasGate(sel) then 1 else 0) + |columns| + (if hasActions then 1 else 0)
  }

  /** `columns.length + 1 + (renderActions ? 1 : 0)`: the empty-state row spans
      the header of a table with exactly one of the expand and select-all cells. */
  function EmptyStateColSpan(columns: seq<Column>, hasActions: bool): (n: nat)
    ensures n == HeaderCellCount(columns, true, WithoutSelection, hasActions)
    ensures n == HeaderCellCount(columns, false, WithSelection([], "gate"), hasActions)
  {
    |columns| + 1 + (if hasActions then 1 else 0)
  }

  /** The expanded-content row, present only with `renderExpandedContent`,
      spans the header exactly when there is no select-all cell. */
  function ExpandedRowColSpan(columns: seq<Column>, hasActions: bool, sel: SelectionProps): (n: nat)
    ensures n == HeaderCellCount(columns, true, sel, hasActions) <==> !HasGate(sel)
    ensures HasGate(sel) ==> n + 1 == HeaderCellCount(columns, true, sel, hasActions)
  {
    |columns| + (if hasActions then 1 else 0) + 1
  }

  /** The empty-state row spans the whole header exactly when the table has one
      of the expand and select-all cells but not both. */
  lemma EmptyStateSpansHeaderIff(columns: seq<Column>, hasExpand: bool, sel: SelectionProps, hasActions: bool)
    ensures EmptyStateColSpan(columns, hasActions) == HeaderCellCount(columns, hasExpand, sel, hasActions)
      <==> hasExpand != HasGate(sel)
  {
  }

  /** The table's own pagination control shows the ceiling page count. */
  function PageCount(p: PaginationProps): (n: nat)
    requires p.itemsPerPage > 0
    ensures n * p.itemsPerPage >= p.totalItems
    ensures p.totalItems > 0 ==> (n - 1) * p.itemsPerPage < p.totalItems
    ensures p.totalItems == 0 ==> n == 0
  {
    FancyPantsPagination.TotalPages(p.totalItems, p.itemsPerPage)
  }

  /** A page change reaches `onPageChange` once, unchanged, when pagination is
      configured, and nothing is called otherwise. */
  function HandlePageChange(pagination: Option<PaginationProps>, page: int): seq<int> {
    if pagination.Some? then [page] else []
  }

  /** The table's inline pagination behaves like the standalone control given the
      same props: the same page count, the same selected page, the same calls on
      a page change; without pagination props a page change calls nothing. */
  lemma TablePaginationIsControl(p: PaginationProps, page: int)
    requires p.itemsPerPage > 0
    ensures HandlePageChange(Some(p), page) == FancyPantsPagination.HandleChange(page)
    ensures PageCount(p) == FancyPantsPagination.Render(p).count
    ensures FancyPantsPagination.Render(p).page == p.currentPage
    ensures HandlePageChange(None, page) == []
  {
  }

  // ---------------------------------------------------------------------------
  // The bulk-action toolbar

  datatype Heading = SelectedCount(count: nat) | Title(text: string) | NoHeading

  /** The toolbar heading: the selection count when something is selected, else
      the title when it is a non-empty string. */
  function ToolbarHeading(selectedRows: seq<Row>, title: Option<string>): Heading {
    if |selectedRows| > 0 then SelectedCount(|selectedRows|)
    else if TruthyString(title) then Title(title.value)
    else NoHeading
  }

  /** The action buttons: all of them, in order, while something is selected. */
  function ToolbarButtons(selectedRows: seq<Row>, actions: seq<SelectAction>): seq<SelectAction> {
    if |selectedRows| > 0 then actions else []
  }

  /** After select-all the toolbar counts the gated rows and offers every action
      when there is one; with no gated row it falls back to the title and offers
      nothing. */
  lemma SelectAllToolbar(sel: SelectionProps, rows: seq<Row>, title: Option<string>)
    requires HasGate(sel)
    ensures var s := SelectAllUpdate(true, sel, Some(rows)).value;
      var n := |GatedRows(rows, sel.selectableGateFieldName)|;
      (n > 0 ==> ToolbarHeading(s, title) == SelectedCount(n) && ToolbarButtons(s, sel.selectActions) == sel.selectActions) &&
      (n == 0 ==> !ToolbarHeading(s, title).SelectedCount? && ToolbarButtons(s, sel.selectActions) == [])
  {
  }

  /** After select-none no count is shown and no action is offered. */
  lemma SelectNoneToolbar(sel: SelectionProps, rows: Option<seq<Row>>, title: Option<string>)
    requires HasGate(sel)
    ensures var s := SelectAllUpdate(false, sel, rows).value;
      !ToolbarHeading(s, title).SelectedCount? && ToolbarButtons(s, sel.selectActions) == []
      && (ToolbarHeading(s, title).Title? <==> TruthyString(title))
  {
  }

  /** Clicking an unselected row raises the count by one and offers every
      action; clicking the only selected row hides them again. */
  lemma ClickToolbar(selected: seq<Row>, r: Row, title: Option<string>, actions: seq<SelectAction>)
    ensures r !in selected ==>
      ToolbarHeading(Toggle(selected, r), title) == SelectedCount(|selected| + 1) &&
      ToolbarButtons(Toggle(selected, r), actions) == actions
    ensures selected == [r] ==>
      ToolbarButtons(Toggle(selected, r), actions) == [] &&
      !ToolbarHeading(Toggle(selected, r), title).SelectedCount?
  {
    if selected == [r] {
      assert IndexOf(selected, r) == 0;
      assert Toggle(selected, r) == [];
    }
  }

  /** While the selection holds no more rows than there are gated rows, the
      toolbar shows a count exactly when the header checkbox is checked or
      indeterminate. */
  lemma ToolbarAgreesWithHeader(sel: SelectionProps, selected: seq<Row>, rows: seq<Row>, title: Option<string>)
    requires HasGate(sel) && |selected| <= |GatedRows(rows, sel.selectableGateFieldName)|
    ensures var h := HeaderCheckbox(sel, selected, Some(rows)).value;
      ToolbarHeading(selected, title).SelectedCount? <==> h.checked || h.indeterminate
  {
  }

  /** A bulk action called with the rows it receives. */
  datatype Invocation = Invocation(action: SelectAction, rows: seq<Row>)

  // ---------------------------------------------------------------------------
  // The component's state

  /** One table instance: the expanded row id and the internal selection, plus
      the caller's selection state behind the `selected` / `setSelected` props.
      Whether each of the two props is supplied is fixed for the instance. */
  class TableState {
    var expandedRow: Option<Id>
    var internalSelected: seq<Row>
    var callerSelected: seq<Row>
    const selection: SelectionProps
    const selectedSupplied: bool
    const setSelectedSupplied: bool

    constructor (selection: SelectionProps, selectedSupplied: bool, setSelectedSupplied: bool, callerSelected: seq<Row>)
      ensures this.selection == selection
      ensures this.selectedSupplied == selectedSupplied && this.setSelectedSupplied == setSelectedSupplied
      ensures this.callerSelected == callerSelected
      ensures expandedRow == None && internalSelected == []
    {
      this.selection := selection;
      this.selectedSupplied := selectedSupplied;
      this.setSelectedSupplied := setSelectedSupplied;
      this.callerSelected := callerSelected;
      expandedRow := None;
      internalSelected := [];
    }

    /** `_selected`: the caller's selection when `selected` is supplied, else the internal one. */
    function Selected(): seq<Row>
      reads this
    {
      if selectedSupplied then callerSelected else internalSelected
    }

    /** Both selection props supplied, or neither: reads and writes meet. */
    predicate Transparent() {
      selectedSupplied == setSelectedSupplied
    }

    /** `_setSelected(s)`: the caller's setter when supplied, else the internal one. */
    method SetSelected(s: seq<Row>)
      modifies this`internalSelected, this`callerSelected
      ensures setSelectedSupplied ==> callerSelected == s && internalSelected == old(internalSelected)
      ensures !setSelectedSupplied ==> internalSelected == s && callerSelected == old(callerSelected)
      ensures Transparent() ==> Selected() == s
      ensures !Transparent() ==> Selected() == old(Selected())
    {
      if setSelectedSupplied {
        callerSelected := s;
      } else {
        internalSelected := s;
      }
    }

    /** `toggleExpandRow`: collapse when the id is the expanded one, else expand it. */
    method ToggleExpandRow(rowId: Id)
      modifies this`expandedRow
      ensures old(expandedRow) == Some(rowId) ==> expandedRow == None
      ensures old(expandedRow) != Some(rowId) ==> expandedRow == Some(rowId)
    {
      expandedRow := if expandedRow == Some(rowId) then None else Some(rowId);
    }

    /** `handleClick(row)`: commit the toggled selection. */
    method HandleClick(row: Row)
      modifies this`internalSelected, this`callerSelected
      ensures setSelectedSupplied ==> callerSelected == Toggle(old(Selected()), row) && internalSelected == old(internalSelected)
      ensures !setSelectedSupplied ==> internalSelected == Toggle(old(Selected()), row) && callerSelected == old(callerSelected)
      ensures Transparent() ==> Selected() == Toggle(old(Selected()), row)
    {
      var newSelected := NewSelection(Selected(), row);
      SetSelected(newSelected);
    }

    /** `handleSelectAllClick`: the gated rows, or nothing, or no change when
      the rows are not loaded. */
    method HandleSelectAllClick(checked: bool, rows: Option<seq<Row>>)
      modifies this`internalSelected, this`callerSelected
      ensures SelectAllUpdate(checked, selection, rows).None? ==>
        internalSelected == old(internalSelected) && callerSelected == old(callerSelected)
      ensures SelectAllUpdate(checked, selection, rows).Some? && setSelectedSupplied ==>
        callerSelected == SelectAllUpdate(checked, selection, rows).value && internalSelected == old(internalSelected)
      ensures SelectAllUpdate(checked, selection, rows).Some? && !setSelectedSupplied ==>
        internalSelected == SelectAllUpdate(checked, selection, rows).value && callerSelected == old(callerSelected)
    {
      if checked && HasGate(selection) {
        var newSelected := if rows.Some? then Some(GatedRows(rows.value, selection.selectableGateFieldName)) else None;
        if newSelected.Some? {
          SetSelected(newSelected.value);
        }
        return;
      }
      SetSelected([]);
    }

    /** A click on a toolbar button calls that action with the whole current selection. */
    method ClickSelectAction(action: SelectAction) returns (inv: Invocation)
      requires selection.WithSelection? && action in ToolbarButtons(Selected(), selection.selectActions)
      ensures inv.action == action && inv.rows == Selected() && |inv.rows| > 0
    {
      inv := Invocation(action, Selected());
    }
  }

  /** The body of `handleClick`: build `newSelected` from the current selection
      branch by branch; every branch agrees with `Toggle`. */
  method NewSelection(selected: seq<Row>, row: Row) returns (newSelected: seq<Row>)
    ensures newSelected == Toggle(selected, row)
  {
    var selectedIndex := IndexOf(selected, row);
    newSelected := [];
    if selectedIndex == -1 {
      newSelected := newSelected + selected + [row];
    } else if selectedIndex == 0 {
      newSelected := newSelected + selected[1..];
    } else if selectedIndex == |selected| - 1 {
      newSelected := newSelected + selected[..|selected| - 1];
    } else if selectedIndex > 0 {
      newSelected := newSelected + selected[..selectedIndex] + selected[selectedIndex + 1..];
    }
  }

  /** After select-all over loaded rows, in a transparent table, the header shows
      checked exactly when there are gated rows, and never indeterminate. */
  lemma SelectAllThenHeader(sel: SelectionProps, rows: seq<Row>)
    requires HasGate(sel)
    ensures var s := SelectAllUpdate(true, sel, Some(rows)).value;
      var h := HeaderCheckbox(sel, s, Some(rows)).value;
      (h.checked <==> |GatedRows(rows, sel.selectableGateFieldName)| > 0) && !h.indeterminate
  {
  }

  /** After select-none the header is neither checked nor indeterminate. */
  lemma SelectNoneThenHeader(sel: SelectionProps, rows: Option<seq<Row>>)
    requires HasGate(sel)
    ensures var s := SelectAllUpdate(false, sel, rows).value;
      var h := HeaderCheckbox(sel, s, rows).value;
      !h.checked && !h.indeterminate
  {
  }
}
