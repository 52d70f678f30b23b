/**
 * The state the main window keeps between callbacks (`DogBreedingApp`): the
 * selected table, the filter map and the sort column and direction, with the
 * callbacks that change them and the statement each reload then runs.
 */
module App {
  import opened Wrappers
  import opened FilterQuery
  import opened FilterDialog
  import opened Strings

  /**
   * A click on a column header: the sorted column flips its direction; any
   * other column (or the first click) becomes the sorted column, ascending.
   */
  function NextSort(s: SortState, column: string): (r: SortState)
    ensures r.column == Some(column)
    ensures s.column == Some(column) ==> r.reverse == !s.reverse
    ensures s.column != Some(column) ==> !r.reverse
  {
    if s.column == Some(column) then SortState(s.column, !s.reverse) else SortState(Some(column), false)
  }

  /** The sort state after `k` clicks on the same header. */
  function Clicks(s: SortState, column: string, k: nat): SortState {
    if k == 0 then s else NextSort(Clicks(s, column, k - 1), column)
  }

  /** Two clicks on the column already sorted restore the direction it had. */
  lemma TwoClicksRestore(s: SortState, column: string)
    requires s.column == Some(column)
    ensures Clicks(s, column, 2) == s
  {
    assert Clicks(s, column, 1) == NextSort(s, column);
  }

  /**
   * Repeated clicks alternate the direction: on the sorted column the k-th
   * click has flipped it k times; on another column the first click sorts
   * ascending, so an even number of clicks leaves it descending.
   */
  lemma {:induction false} RepeatedClicks(s: SortState, column: string, k: nat)
    requires k > 0
    ensures Clicks(s, column, k).column == Some(column)
    ensures s.column == Some(column) ==> (Clicks(s, column, k).reverse <==> (s.reverse != (k % 2 == 1)))
    ensures s.column != Some(column) ==> (Clicks(s, column, k).reverse <==> k % 2 == 0)
  {
    if k > 1 {
      RepeatedClicks(s, column, k - 1);
    }
  }

  /** The statement a reload runs, none while no table is selected. */
  function LoadQuery(table: Option<string>, filter: seq<FilterEntry>, sort: SortState): (r: Option<TableQuery>)
    ensures r.None? <==> table.None? || table.value == ""
    ensures r.Some? ==> r.value.params == Params(FilterConditions(filter))
  {
    if table.None? || table.value == "" then None else Some(TableQueryFor(table.value, filter, sort))
  }

  class DogBreedingApp {
    var currentTable: Option<string>
    var currentFilter: seq<FilterEntry>
    var sortColumn: Option<string>
    var sortReverse: bool

    /** The filter map is a dictionary: no column appears twice. */
    predicate Valid()
      reads this
    {
      DistinctColumns(currentFilter)
    }

    function Sort(): SortState
      reads this
    {
      SortState(sortColumn, sortReverse)
    }

    /** The statement the next reload runs. */
    function Query(): Option<TableQuery>
      reads this
    {
      LoadQuery(currentTable, currentFilter, Sort())
    }

    /** A fresh window: no table, no filter, no sort. */
    constructor ()
      ensures currentTable == None && currentFilter == [] && sortColumn == None && !sortReverse
      ensures Valid()
    {
      currentTable := None;
      currentFilter := [];
      sortColumn := None;
      sortReverse := false;
    }

    /** `load_table_data` without a custom query: the statement for the current state. */
    method LoadTableData() returns (q: Option<TableQuery>)
      ensures q == Query()
    {
      if currentTable.None? || currentTable.value == "" {
        return None;
      }
      var t := BuildSelect(currentTable.value, currentFilter, Sort());
      return Some(t);
    }

    /**
     * `on_table_select`: a selection makes that table current and the table
     * is reloaded; with nothing selected nothing changes and nothing is loaded.
     */
    method SelectTable(selection: Option<string>) returns (q: Option<TableQuery>)
      requires Valid()
      modifies this
      ensures Valid()
      ensures selection.Some? ==> currentTable == selection && q == Query()
      ensures selection.None? ==> currentTable == old(currentTable) && q.None?
      ensures currentFilter == old(currentFilter) && Sort() == old(Sort())
    {
      if selection.Some? {
        currentTable := selection;
        q := LoadTableData();
      } else {
        q := None;
      }
    }

    /** `sort_by_column`: the header click moves the sort state, and the table is reloaded. */
    method SortByColumn(column: string) returns (q: Option<TableQuery>)
      requires Valid()
      modifies this
      ensures Valid()
      ensures Sort() == NextSort(old(Sort()), column)
      ensures currentTable == old(currentTable) && currentFilter == old(currentFilter)
      ensures q == Query()
    {
      if sortColumn == Some(column) {
        sortReverse := !sortReverse;
      } else {
        sortColumn := Some(column);
        sortReverse := false;
      }
      q := LoadTableData();
    }

    /** `reset_filters`: no filter and no sort, and the table is reloaded. */
    method ResetFilters() returns (q: Option<TableQuery>)
      modifies this
      ensures currentFilter == [] && sortColumn == None && !sortReverse
      ensures currentTable == old(currentTable)
      ensures Valid()
      ensures q == LoadQuery(currentTable, [], SortState(None, false))
    {
      currentFilter := [];
      sortColumn := None;
      sortReverse := false;
      q := LoadTableData();
    }

    /**
     * `apply_filters`: the dialog's fields are screened; an abort changes
     * nothing, otherwise the filter map is replaced wholesale and the table is
     * reloaded. The result is the number of filters applied. The dialog has
     * one field per column, so the new map is again a dictionary.
     */
    method ApplyFilters(ws: seq<FilterField>, isDate: string -> bool, isFloat: string -> bool)
      returns (r: Result<nat, FilterError>, q: Option<TableQuery>)
      requires Valid()
      requires DistinctColumns(AsEntries(ws))
      modifies this
      ensures Valid()
      ensures currentTable == old(currentTable) && Sort() == old(Sort())
      ensures r.Failure? <==> ValidateFilters(ws, isDate, isFloat).Failure?
      ensures r.Failure? ==> r.error == ValidateFilters(ws, isDate, isFloat).error
      ensures r.Failure? ==> currentFilter == old(currentFilter) && q.None?
      ensures r.Success? ==>
                && currentFilter == ValidateFilters(ws, isDate, isFloat).value
                && r.value == |currentFilter|
                && q == Query()
    {
      var filters := CollectFilters(ws, isDate, isFloat);
      if filters.Failure? {
        return Failure(filters.error), None;
      }
      StoredFiltersAllApply(ws, isDate, isFloat);
      currentFilter := filters.value;
      q := LoadTableData();
      r := Success(|currentFilter|);
    }
  }

  /**
   * After a successful apply, the reload has one condition per applied
   * filter, and with a table selected it always runs.
   */
  lemma AppliedFiltersAllBecomeConditions(
    table: string, ws: seq<FilterField>, isDate: string -> bool, isFloat: string -> bool, sort: SortState)
    requires table != ""
    requires ValidateFilters(ws, isDate, isFloat).Success?
    ensures var fs := ValidateFilters(ws, isDate, isFloat).value;
            var q := LoadQuery(Some(table), fs, sort);
            q.Some? && |q.value.params| == |fs|
  {
    StoredFiltersAllApply(ws, isDate, isFloat);
  }

  /** After a reset the statement is the bare `SELECT * FROM <table>`. */
  lemma ResetLoadsWholeTable(table: string)
    requires table != ""
    ensures LoadQuery(Some(table), [], SortState(None, false)) == Some(TableQuery("SELECT * FROM " + table, []))
  {
    SelectShape(table, [], SortState(None, false));
  }

  /** After a header click, the statement ends with that column's ORDER BY, DESC exactly when reversed. */
  lemma SortedReloadOrdersByColumn(table: string, filter: seq<FilterEntry>, s: SortState, column: string)
    requires table != "" && column != ""
    ensures var next := NextSort(s, column);
            var q := LoadQuery(Some(table), filter, next);
            && q.Some?
            && EndsWith(q.value.text, OrderClause(next))
            && StartsWith(OrderClause(next), " ORDER BY " + column + " ")
            && (EndsWith(q.value.text, " DESC") <==> next.reverse)
  {
    var next := NextSort(s, column);
    SelectShape(table, filter, next);
    var text := LoadQuery(Some(table), filter, next).value.text;
    var o := OrderClause(next);
    assert text[|text| - |o|..] == o;
    EndsWithThrough(text, o, " DESC");
  }
}
