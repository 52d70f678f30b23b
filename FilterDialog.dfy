/**
 * The checks `apply_filters` makes on the values read from the filter dialog
 * before it replaces the filter map: a bad date or a non-numeric value in a
 * numeric column aborts the whole apply; every other non-empty value is kept
 * as typed.
 */
module FilterDialog {
  import opened Wrappers
  import opened Strings
  import opened FilterQuery

  /** One field of the filter dialog: column, declared type, and the string read from its widget. */
  datatype FilterField = FilterField(column: string, dataType: string, value: string)

  /** Why an apply was aborted, naming the offending column. */
  datatype FilterError = BadDate(column: string) | BadNumber(column: string)

  /** What happens to one field: left out (empty), kept, or the apply is aborted. */
  datatype Verdict = Skip | Keep | Reject(error: FilterError)

  /** A declared type the dialog treats as a number: it mentions int, numeric or serial. */
  predicate IsNumericType(dataType: string) {
    Contains(dataType, "int") || Contains(dataType, "numeric") || Contains(dataType, "serial")
  }

  /** A type name without the letter `i` is not numeric: all three markers contain it. */
  lemma NoLetterINotNumeric(dataType: string)
    requires 'i' !in dataType
    ensures !IsNumericType(dataType)
  {
    if Contains(dataType, "int") { ContainsChar(dataType, "int", 0); }
    if Contains(dataType, "numeric") { ContainsChar(dataType, "numeric", 5); }
    if Contains(dataType, "serial") { ContainsChar(dataType, "serial", 3); }
  }

  /** The integer, numeric and serial PostgreSQL types count as numbers. */
  lemma NumericTypeNames()
    ensures IsNumericType("integer") && IsNumericType("numeric(10,2)") && IsNumericType("serial")
    ensures IsNumericType("bigint") && IsNumericType("smallint")
  {
    assert StartsWith("integer", "int");
    assert StartsWith("numeric(10,2)", "numeric");
    assert StartsWith("serial", "serial");
    assert StartsWith("bigint"[3..], "int");
    assert Contains("bigint"[2..], "int");
    assert Contains("bigint"[1..], "int");
    assert StartsWith("smallint"[5..], "int");
    assert Contains("smallint"[4..], "int");
    assert Contains("smallint"[3..], "int");
    assert Contains("smallint"[2..], "int");
    assert Contains("smallint"[1..], "int");
  }

  /** Text, date, boolean and varchar columns are not numeric. */
  lemma NonNumericTypeNames()
    ensures !IsNumericType("text") && !IsNumericType("date") && !IsNumericType("boolean") && !IsNumericType("varchar")
  {
    assert !IsNumericType("text") by { NoLetterINotNumeric("text"); }
    assert !IsNumericType("date") by { NoLetterINotNumeric("date"); }
    assert !IsNumericType("boolean") by { NoLetterINotNumeric("boolean"); }
    assert !IsNumericType("varchar") by { NoLetterINotNumeric("varchar"); }
  }

  /**
   * A field whose value must parse as a number: non-empty, not a date, not a
   * boolean, not the gender or medal column, and of a numeric type.
   */
  predicate NumberChecked(w: FilterField) {
    && w.value != ""
    && w.dataType != "date"
    && !Contains(w.dataType, "bool")
    && w.column != "gender" && w.column != "medal"
    && IsNumericType(w.dataType)
  }

  /**
   * The verdict on one field. `isDate` stands for a successful
   * `datetime.strptime(value, '%Y-%m-%d')` and `isFloat` for a successful
   * `float(value)`.
   */
  function Screen(w: FilterField, isDate: string -> bool, isFloat: string -> bool): (r: Verdict)
    ensures r == Skip <==> w.value == ""
    ensures r.Reject? ==> r.error.column == w.column
    ensures r.Reject? && r.error.BadDate? <==> w.value != "" && w.dataType == "date" && !isDate(w.value)
    ensures r.Reject? && r.error.BadNumber? <==> NumberChecked(w) && !isFloat(w.value)
    ensures NumberChecked(w) && !isFloat(w.value) ==> r == Reject(BadNumber(w.column))
    ensures w.value != "" && IsNumericType(w.dataType) && isFloat(w.value) && w.dataType != "date" ==> r == Keep
  {
    if w.value == "" then Skip
    else if w.dataType == "date" then
      if isDate(w.value) then Keep else Reject(BadDate(w.column))
    else if Contains(w.dataType, "bool") then Keep
    else if w.column == "gender" || w.column == "medal" then Keep
    else if IsNumericType(w.dataType) then
      if isFloat(w.value) then Keep else Reject(BadNumber(w.column))
    else Keep
  }

  /** The new filter map, or the error of the first field that aborts the apply. */
  function ValidateFilters(ws: seq<FilterField>, isDate: string -> bool, isFloat: string -> bool)
    : (r: Result<seq<FilterEntry>, FilterError>)
    ensures r.Success? ==> |r.value| <= |ws|
    ensures r.Success? ==> forall i | 0 <= i < |r.value| :: r.value[i].value != ""
  {
    if ws == [] then Success([])
    else
      var w := ws[|ws| - 1];
      match ValidateFilters(ws[..|ws| - 1], isDate, isFloat)
      case Failure(e) => Failure(e)
      case Success(fs) =>
        match Screen(w, isDate, isFloat)
        case Skip => Success(fs)
        case Keep => Success(fs + [FilterEntry(w.column, w.value)])
        case Reject(e) => Failure(e)
  }

  /** The fields as filter-map items, empty ones included. */
  function AsEntries(ws: seq<FilterField>): (r: seq<FilterEntry>)
    ensures |r| == |ws|
    ensures forall i | 0 <= i < |ws| :: r[i] == FilterEntry(ws[i].column, ws[i].value)
  {
    seq(|ws|, i requires 0 <= i < |ws| => FilterEntry(ws[i].column, ws[i].value))
  }

  /** Once a prefix of the fields aborts, the whole apply aborts with the same error. */
  lemma {:induction false} FailurePersists(ws: seq<FilterField>, k: nat, isDate: string -> bool, isFloat: string -> bool)
    requires k <= |ws|
    requires ValidateFilters(ws[..k], isDate, isFloat).Failure?
    ensures ValidateFilters(ws, isDate, isFloat) == ValidateFilters(ws[..k], isDate, isFloat)
    decreases |ws| - k
  {
    if k < |ws| {
      assert ws[..k + 1][..k] == ws[..k];
      FailurePersists(ws, k + 1, isDate, isFloat);
    } else {
      assert ws[..k] == ws;
    }
  }

  /** The apply succeeds exactly when no field is rejected. */
  lemma {:induction false} SucceedsIffNoReject(ws: seq<FilterField>, isDate: string -> bool, isFloat: string -> bool)
    ensures ValidateFilters(ws, isDate, isFloat).Success? <==>
              forall i | 0 <= i < |ws| :: !Screen(ws[i], isDate, isFloat).Reject?
  {
    if ws != [] {
      var init := ws[..|ws| - 1];
      SucceedsIffNoReject(init, isDate, isFloat);
      assert forall i | 0 <= i < |init| :: init[i] == ws[i];
    }
  }

  /** An aborted apply reports the error of the first rejected field. */
  lemma {:induction false} FailureNamesFirstReject(ws: seq<FilterField>, isDate: string -> bool, isFloat: string -> bool)
    requires ValidateFilters(ws, isDate, isFloat).Failure?
    ensures exists i | 0 <= i < |ws| ::
              && Screen(ws[i], isDate, isFloat) == Reject(ValidateFilters(ws, isDate, isFloat).error)
              && forall j | 0 <= j < i :: !Screen(ws[j], isDate, isFloat).Reject?
  {
    var init := ws[..|ws| - 1];
    var e := ValidateFilters(ws, isDate, isFloat).error;
    if ValidateFilters(init, isDate, isFloat).Failure? {
      FailureNamesFirstReject(init, isDate, isFloat);
      var i :| 0 <= i < |init| && Screen(init[i], isDate, isFloat) == Reject(e)
               && forall j | 0 <= j < i :: !Screen(init[j], isDate, isFloat).Reject?;
      assert ws[i] == init[i];
      assert forall j | 0 <= j < i :: ws[j] == init[j];
    } else {
      SucceedsIffNoReject(init, isDate, isFloat);
      assert forall j | 0 <= j < |init| :: ws[j] == init[j];
      assert Screen(ws[|ws| - 1], isDate, isFloat) == Reject(e);
    }
  }

  /**
   * A non-numeric value in a numeric column aborts the apply with that
   * column's error when no earlier field was rejected; the window then keeps
   * its filter map (see `App.DogBreedingApp.ApplyFilters`).
   */
  lemma BadNumberAbortsApply(ws: seq<FilterField>, k: nat, isDate: string -> bool, isFloat: string -> bool)
    requires k < |ws|
    requires NumberChecked(ws[k]) && !isFloat(ws[k].value)
    requires forall j | 0 <= j < k :: !Screen(ws[j], isDate, isFloat).Reject?
    ensures ValidateFilters(ws, isDate, isFloat) == Failure(BadNumber(ws[k].column))
  {
    var init := ws[..k];
    assert ValidateFilters(init, isDate, isFloat).Success? by {
      assert forall j | 0 <= j < |init| :: init[j] == ws[j];
      SucceedsIffNoReject(init, isDate, isFloat);
    }
    assert ws[..k + 1][..k] == init && ws[..k + 1][k] == ws[k];
    assert ValidateFilters(ws[..k + 1], isDate, isFloat) == Failure(BadNumber(ws[k].column));
    FailurePersists(ws, k + 1, isDate, isFloat);
  }

  /**
   * A successful apply stores exactly the non-empty values, as typed, in field
   * order.
   */
  lemma {:induction false} SuccessKeepsNonEmptyValues(ws: seq<FilterField>, isDate: string -> bool, isFloat: string -> bool)
    requires ValidateFilters(ws, isDate, isFloat).Success?
    ensures ValidateFilters(ws, isDate, isFloat).value == NonEmptyEntries(AsEntries(ws))
  {
    if ws != [] {
      var init := ws[..|ws| - 1];
      var w := ws[|ws| - 1];
      SuccessKeepsNonEmptyValues(init, isDate, isFloat);
      assert AsEntries(ws) == AsEntries(init) + [FilterEntry(w.column, w.value)];
      NonEmptyEntriesAppend(AsEntries(init), [FilterEntry(w.column, w.value)]);
    }
  }

  /**
   * Every value a successful apply stores yields one condition when the table
   * is reloaded, and the stored map is a dictionary when the columns are.
   */
  lemma StoredFiltersAllApply(ws: seq<FilterField>, isDate: string -> bool, isFloat: string -> bool)
    requires ValidateFilters(ws, isDate, isFloat).Success?
    ensures var fs := ValidateFilters(ws, isDate, isFloat).value;
              |FilterConditions(fs)| == |fs| &&
              (DistinctColumns(AsEntries(ws)) ==> DistinctColumns(fs))
  {
    var fs := ValidateFilters(ws, isDate, isFloat).value;
    SuccessKeepsNonEmptyValues(ws, isDate, isFloat);
    NonEmptyEntriesIdentity(fs);
    ConditionsFollowNonEmptyEntries(fs);
    if DistinctColumns(AsEntries(ws)) {
      NonEmptyEntriesDistinct(AsEntries(ws));
    }
  }

  /**
   * The loop of `apply_filters`: screen each field in turn, collect the kept
   * values, and abort at the first bad date or bad number.
   */
  method CollectFilters(ws: seq<FilterField>, isDate: string -> bool, isFloat: string -> bool)
    returns (r: Result<seq<FilterEntry>, FilterError>)
    ensures r == ValidateFilters(ws, isDate, isFloat)
  {
    var filters: seq<FilterEntry> := [];
    var i := 0;
    while i < |ws|
      invariant 0 <= i <= |ws|
      invariant ValidateFilters(ws[..i], isDate, isFloat) == Success(filters)
    {
      var w := ws[i];
      assert ws[..i + 1][..i] == ws[..i];
      if w.value != "" {
        if w.dataType == "date" {
          if isDate(w.value) {
            filters := filters + [FilterEntry(w.column, w.value)];
          } else {
            FailurePersists(ws, i + 1, isDate, isFloat);
            return Failure(BadDate(w.column));
          }
        } else if Contains(w.dataType, "bool") {
          filters := filters + [FilterEntry(w.column, w.value)];
        } else if w.column == "gender" || w.column == "medal" {
          filters := filters + [FilterEntry(w.column, w.value)];
        } else if IsNumericType(w.dataType) {
          if isFloat(w.value) {
            filters := filters + [FilterEntry(w.column, w.value)];
          } else {
            FailurePersists(ws, i + 1, isDate, isFloat);
            return Failure(BadNumber(w.column));
          }
        } else {
          filters := filters + [FilterEntry(w.column, w.value)];
        }
      }
      i := i + 1;
    }
    assert ws[..i] == ws;
    return Success(filters);
  }
}
