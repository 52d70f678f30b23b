/**
 * The general add-record form (`create_general_form`): which columns get a
 * field, which widget each field gets, and how `save_record` turns the strings
 * read from the widgets into the values of the INSERT.
 */
module RecordForm {
  import opened Wrappers
  import opened Strings

  /** A value bound to a column of an INSERT; `VFloat` holds the text Python's `float()` accepted. */
  datatype Value = VBool(b: bool) | VInt(n: int) | VFloat(text: string) | VText(s: string)

  /** One `column: value` item of the ordered values dictionary. */
  datatype Assignment = Assignment(column: string, value: Value)

  /** A row of a lookup query: the id and the name shown next to it. */
  datatype LookupRow = LookupRow(id: int, name: string)

  /** The lookup query that fills a foreign-key choice list. */
  datatype LookupSource = Breeds | LivingDogs | Illnesses

  /** The rows the three lookup queries return when the form is saved. */
  datatype Lookups = Lookups(breeds: seq<LookupRow>, livingDogs: seq<LookupRow>, illnesses: seq<LookupRow>)

  /** The input widget a form shows for a column. */
  datatype Widget = DatePicker | Choice(options: seq<string>) | ForeignKeyChoice(source: LookupSource) | TextEntry

  /** One field of the form: column, declared type, and the string read from its widget. */
  datatype FormField = FormField(column: string, dataType: string, input: string)

  predicate IsCombobox(w: Widget) {
    w.Choice? || w.ForeignKeyChoice?
  }

  /** The columns the form resolves through a lookup list. */
  const ForeignKeyColumns: seq<string> := ["id_breed", "id_mother", "id_father", "id_dog", "id_illness"]

  /** Key columns the form never shows, in any table. */
  const HiddenColumns: seq<string> := ["id_dog", "id_exhibition", "id_record", "id_illness"]

  /** The lookup that fills a foreign-key column's list. */
  function SourceOf(column: string): (r: Option<LookupSource>)
    ensures r.Some? <==> column in ForeignKeyColumns
  {
    if column == "id_breed" then Some(Breeds)
    else if column in ["id_mother", "id_father", "id_dog"] then Some(LivingDogs)
    else if column == "id_illness" then Some(Illnesses)
    else None
  }

  function RowsFor(lookups: Lookups, source: LookupSource): seq<LookupRow> {
    match source
    case Breeds => lookups.breeds
    case LivingDogs => lookups.livingDogs
    case Illnesses => lookups.illnesses
  }

  /**
   * Whether the form has a field for a column: not a serial column and not a
   * hidden key. The form never offers the dog or illness key, so of the
   * lookup lists only the breeds and the mother and father lists are used.
   */
  predicate ShownInForm(column: string, dataType: string)
    ensures ShownInForm(column, dataType) ==> SourceOf(column) != Some(Illnesses)
    ensures ShownInForm(column, dataType) && SourceOf(column) == Some(LivingDogs) ==>
              column in ["id_mother", "id_father"]
  {
    !Contains(dataType, "serial") && column !in HiddenColumns
  }

  /**
   * The widget for a column, first matching rule wins: a date type, a boolean
   * type, gender, medal, then the foreign-key columns, else free text.
   */
  function FormWidget(column: string, dataType: string): (r: Widget)
    ensures r.DatePicker? <==> Contains(dataType, "date")
    ensures r.ForeignKeyChoice? ==> SourceOf(column) == Some(r.source)
    ensures r.ForeignKeyChoice? <==>
              !Contains(dataType, "date") && !Contains(dataType, "bool") && column in ForeignKeyColumns
    ensures !Contains(dataType, "date") && Contains(dataType, "bool") ==> r == Choice(["TRUE", "FALSE"])
    ensures !Contains(dataType, "date") && !Contains(dataType, "bool") && column == "gender" ==>
              r == Choice(["M", "F"])
    ensures !Contains(dataType, "date") && !Contains(dataType, "bool") && column == "medal" ==>
              r == Choice(["", "Gold", "Silver", "Bronze"])
    ensures IsCombobox(r) <==>
              !Contains(dataType, "date") &&
              (Contains(dataType, "bool") || column in ["gender", "medal"] + ForeignKeyColumns)
  {
    if Contains(dataType, "date") then DatePicker
    else if Contains(dataType, "bool") then Choice(["TRUE", "FALSE"])
    else if column == "gender" then Choice(["M", "F"])
    else if column == "medal" then Choice(["", "Gold", "Silver", "Bronze"])
    else if column == "id_breed" then ForeignKeyChoice(Breeds)
    else if column in ["id_mother", "id_father", "id_dog"] then ForeignKeyChoice(LivingDogs)
    else if column == "id_illness" then ForeignKeyChoice(Illnesses)
    else TextEntry
  }

  /** The label a lookup row is shown with: `"<name> (ID: <id>)"`. */
  function Label(row: LookupRow): (r: string)
    ensures StartsWith(r, row.name + " (ID: ") && EndsWith(r, ")")
  {
    var r := row.name + " (ID: " + IntToString(row.id) + ")";
    assert r[..|row.name + " (ID: "|] == row.name + " (ID: ";
    r
  }

  /** The id of the first row whose label equals `choice` exactly. */
  function LookupLabel(rows: seq<LookupRow>, choice: string): (r: Option<int>)
    ensures r.Some? <==> exists k | 0 <= k < |rows| :: Label(rows[k]) == choice
    ensures r.Some? ==> exists k | 0 <= k < |rows| :: Label(rows[k]) == choice && rows[k].id == r.value
  {
    if rows == [] then None
    else if Label(rows[0]) == choice then Some(rows[0].id)
    else
      var r := LookupLabel(rows[1..], choice);
      assert forall k | 0 <= k < |rows[1..]| :: rows[1..][k] == rows[k + 1];
      r
  }

  /** The characters after the last space of a string (all of it when it has none). */
  function AfterLastSpace(s: string): string
    decreases |s|
  {
    if s == [] || s[|s| - 1] == ' ' then [] else AfterLastSpace(s[..|s| - 1]) + [s[|s| - 1]]
  }

  lemma {:induction false} AfterLastSpaceOf(x: string, d: string)
    requires forall i | 0 <= i < |d| :: d[i] != ' '
    ensures AfterLastSpace(x + " " + d) == d
  {
    var t := x + " " + d;
    if d != [] {
      var d' := d[..|d| - 1];
      assert t[..|t| - 1] == x + " " + d';
      AfterLastSpaceOf(x, d');
    }
  }

  /** A label names one row: its id and its name can be read back from it. */
  lemma LabelDeterminesRow(a: LookupRow, b: LookupRow)
    requires Label(a) == Label(b)
    ensures a == b
  {
    var s := Label(a);
    var da, db := IntToString(a.id), IntToString(b.id);
    var body := s[..|s| - 1];
    assert body == (a.name + " (ID:") + " " + da;
    assert body == (b.name + " (ID:") + " " + db;
    AfterLastSpaceOf(a.name + " (ID:", da);
    AfterLastSpaceOf(b.name + " (ID:", db);
    IntToStringInjective(a.id, b.id);
    assert a.name == s[..|a.name|] == b.name;
  }

  /** Choosing a row's label from the list resolves back to that row's id. */
  lemma {:induction false} ForeignKeyRoundTrip(rows: seq<LookupRow>, k: nat)
    requires k < |rows|
    ensures LookupLabel(rows, Label(rows[k])) == Some(rows[k].id)
  {
    if Label(rows[0]) == Label(rows[k]) {
      LabelDeterminesRow(rows[0], rows[k]);
    } else {
      assert k > 0;
      assert rows[1..][k - 1] == rows[k];
      ForeignKeyRoundTrip(rows[1..], k - 1);
    }
  }

  /** A column whose declared type mentions int or numeric. */
  predicate HoldsNumber(dataType: string) {
    Contains(dataType, "int") || Contains(dataType, "numeric")
  }

  /** A foreign-key column shown as a choice list: its value is resolved through a lookup. */
  predicate IsLookupField(f: FormField) {
    f.column in ForeignKeyColumns && IsCombobox(FormWidget(f.column, f.dataType))
  }

  /**
   * The value `save_record` stores for one field, None when the field is left
   * out: an empty input, or a foreign-key label that matches no row. `isFloat`
   * stands for a successful `float(input)`.
   */
  function CoerceField(f: FormField, lookups: Lookups, isFloat: string -> bool): (r: Option<Value>)
    ensures f.input == "" ==> r.None?
    ensures IsLookupField(f) && f.input != "" ==>
              var rows := RowsFor(lookups, SourceOf(f.column).value);
              && (r.None? <==> forall k | 0 <= k < |rows| :: Label(rows[k]) != f.input)
              && (r.Some? ==>
                    && r.value.VInt?
                    && exists k | 0 <= k < |rows| :: Label(rows[k]) == f.input && rows[k].id == r.value.n)
    ensures !IsLookupField(f) && f.input != "" ==>
              && r.Some?
              && (r.value.VBool? <==> IsBoolToken(f.input))
              && (r.value.VBool? ==> (r.value.b <==> Upper(f.input) == "TRUE"))
              && (r.value.VInt? <==> !IsBoolToken(f.input) && HoldsNumber(f.dataType) && ParseInt(f.input).Some?)
              && (r.value.VInt? ==> ParseInt(f.input) == Some(r.value.n))
              && (r.value.VFloat? <==>
                    !IsBoolToken(f.input) && HoldsNumber(f.dataType) && ParseInt(f.input).None? && isFloat(f.input))
              && (r.value.VFloat? ==> r.value.text == f.input)
              && (r.value.VText? ==> r.value.s == f.input)
  {
    if f.input == "" then None
    else if IsLookupField(f) then
      match LookupLabel(RowsFor(lookups, SourceOf(f.column).value), f.input)
      case Some(id) => Some(VInt(id))
      case None => None
    else if IsBoolToken(f.input) then Some(VBool(Upper(f.input) == "TRUE"))
    else if HoldsNumber(f.dataType) then
      match ParseInt(f.input)
      case Some(n) => Some(VInt(n))
      case None => if isFloat(f.input) then Some(VFloat(f.input)) else Some(VText(f.input))
    else Some(VText(f.input))
  }

  /** A lookup field whose input is the label of a listed row is stored as that row's id. */
  lemma ForeignKeyFieldResolves(f: FormField, lookups: Lookups, isFloat: string -> bool, k: nat)
    requires IsLookupField(f)
    requires k < |RowsFor(lookups, SourceOf(f.column).value)|
    requires f.input == Label(RowsFor(lookups, SourceOf(f.column).value)[k])
    ensures CoerceField(f, lookups, isFloat) == Some(VInt(RowsFor(lookups, SourceOf(f.column).value)[k].id))
  {
    ForeignKeyRoundTrip(RowsFor(lookups, SourceOf(f.column).value), k);
  }

  /** An integer typed in decimal into a numeric, non-lookup field is stored as that integer. */
  lemma NumericFieldRoundTrip(column: string, dataType: string, n: int, lookups: Lookups, isFloat: string -> bool)
    requires HoldsNumber(dataType)
    requires !IsLookupField(FormField(column, dataType, IntToString(n)))
    requires WithinDigitLimit(n)
    ensures CoerceField(FormField(column, dataType, IntToString(n)), lookups, isFloat) == Some(VInt(n))
  {
    var v := IntToString(n);
    ParseIntRoundTrip(n);
    assert Upper(v)[0] == v[0];
    assert !IsBoolToken(v) by {
      assert Upper(v)[0] != 'T' && Upper(v)[0] != 'F';
    }
  }

  /** The values dictionary: one item per field that is not left out, in field order. */
  function CoercedRow(fs: seq<FormField>, lookups: Lookups, isFloat: string -> bool): (r: seq<Assignment>)
    ensures |r| <= |fs|
  {
    if fs == [] then []
    else
      var f := fs[|fs| - 1];
      CoercedRow(fs[..|fs| - 1], lookups, isFloat) +
        match CoerceField(f, lookups, isFloat)
        case Some(v) => [Assignment(f.column, v)]
        case None => []
  }

  /** Every field that is not left out is in the row, with its coerced value. */
  lemma {:induction false} CoercedRowHasEveryKeptField(fs: seq<FormField>, lookups: Lookups, isFloat: string -> bool, i: nat)
    requires i < |fs| && CoerceField(fs[i], lookups, isFloat).Some?
    ensures Assignment(fs[i].column, CoerceField(fs[i], lookups, isFloat).value) in CoercedRow(fs, lookups, isFloat)
  {
    var init := fs[..|fs| - 1];
    var a := Assignment(fs[i].column, CoerceField(fs[i], lookups, isFloat).value);
    var r := CoercedRow(fs, lookups, isFloat);
    if i < |init| {
      assert init[i] == fs[i];
      CoercedRowHasEveryKeptField(init, lookups, isFloat, i);
      var row := CoercedRow(init, lookups, isFloat);
      var k :| 0 <= k < |row| && row[k] == a;
      CoercedRowExtends(fs, lookups, isFloat);
      assert r[k] == a;
    } else {
      assert i == |fs| - 1;
      CoercedRowLastKept(fs, lookups, isFloat);
      assert r[|r| - 1] == a;
    }
  }

  /**
   * The row of a form is the row of the form without its last field, followed
   * by at most one item, for the last field's column.
   */
  lemma CoercedRowExtends(fs: seq<FormField>, lookups: Lookups, isFloat: string -> bool)
    requires |fs| > 0
    ensures CoercedRow(fs[..|fs| - 1], lookups, isFloat) <= CoercedRow(fs, lookups, isFloat)
    ensures |CoercedRow(fs, lookups, isFloat)| <= |CoercedRow(fs[..|fs| - 1], lookups, isFloat)| + 1
    ensures forall k | |CoercedRow(fs[..|fs| - 1], lookups, isFloat)| <= k < |CoercedRow(fs, lookups, isFloat)| ::
              CoercedRow(fs, lookups, isFloat)[k].column == fs[|fs| - 1].column
  {
  }

  /** A kept last field ends the row, with its coerced value. */
  lemma CoercedRowLastKept(fs: seq<FormField>, lookups: Lookups, isFloat: string -> bool)
    requires |fs| > 0 && CoerceField(fs[|fs| - 1], lookups, isFloat).Some?
    ensures CoercedRow(fs, lookups, isFloat)[|CoercedRow(fs, lookups, isFloat)| - 1] ==
              Assignment(fs[|fs| - 1].column, CoerceField(fs[|fs| - 1], lookups, isFloat).value)
  {
  }

  /** Every item of the row comes from a field of the form, with that field's coerced value. */
  lemma {:induction false} CoercedRowOnlyKeptFields(fs: seq<FormField>, lookups: Lookups, isFloat: string -> bool)
    ensures forall a | a in CoercedRow(fs, lookups, isFloat) :: exists i | 0 <= i < |fs| ::
              CoerceField(fs[i], lookups, isFloat) == Some(a.value) && fs[i].column == a.column
  {
    if fs != [] {
      var init := fs[..|fs| - 1];
      CoercedRowOnlyKeptFields(init, lookups, isFloat);
      assert forall i | 0 <= i < |init| :: init[i] == fs[i];
    }
  }

  /** No column has two items: the row is a dictionary. */
  predicate DistinctKeys(row: seq<Assignment>) {
    forall i, j | 0 <= i < j < |row| :: row[i].column != row[j].column
  }

  /** The row is a dictionary when the form's columns are distinct. */
  lemma {:induction false} CoercedRowDistinct(fs: seq<FormField>, lookups: Lookups, isFloat: string -> bool)
    requires forall i, j | 0 <= i < j < |fs| :: fs[i].column != fs[j].column
    ensures DistinctKeys(CoercedRow(fs, lookups, isFloat))
  {
    if fs != [] {
      var init := fs[..|fs| - 1];
      var row := CoercedRow(init, lookups, isFloat);
      var r := CoercedRow(fs, lookups, isFloat);
      CoercedRowDistinct(init, lookups, isFloat);
      CoercedRowOnlyKeptFields(init, lookups, isFloat);
      CoercedRowExtends(fs, lookups, isFloat);
      forall p, q | 0 <= p < q < |r| ensures r[p].column != r[q].column {
        assert r[p] == row[p];
        if q >= |row| {
          var i :| 0 <= i < |init| && CoerceField(init[i], lookups, isFloat) == Some(row[p].value) && init[i].column == row[p].column;
          assert init[i] == fs[i];
        }
      }
    }
  }

  /** The row never holds an empty string: an empty field is left out. */
  lemma {:induction false} CoercedRowNeverEmptyText(fs: seq<FormField>, lookups: Lookups, isFloat: string -> bool)
    ensures forall k | 0 <= k < |CoercedRow(fs, lookups, isFloat)| :: CoercedRow(fs, lookups, isFloat)[k].value != VText("")
  {
    if fs != [] {
      CoercedRowNeverEmptyText(fs[..|fs| - 1], lookups, isFloat);
    }
  }

  /** A form whose fields are all empty inserts nothing. */
  lemma {:induction false} EmptyFormInsertsNothing(fs: seq<FormField>, lookups: Lookups, isFloat: string -> bool)
    requires forall i | 0 <= i < |fs| :: fs[i].input == ""
    ensures CoercedRow(fs, lookups, isFloat) == []
  {
    if fs != [] {
      EmptyFormInsertsNothing(fs[..|fs| - 1], lookups, isFloat);
    }
  }

  /**
   * The loop of `save_record`: each non-empty field is resolved through its
   * lookup list, read as a boolean token, parsed as a number, or kept as typed.
   */
  method SaveRecordValues(fs: seq<FormField>, lookups: Lookups, isFloat: string -> bool)
    returns (values: seq<Assignment>)
    ensures values == CoercedRow(fs, lookups, isFloat)
  {
    values := [];
    var i := 0;
    while i < |fs|
      invariant 0 <= i <= |fs|
      invariant values == CoercedRow(fs[..i], lookups, isFloat)
    {
      assert fs[..i + 1][..i] == fs[..i];
      var v := CoerceInput(fs[i], lookups, isFloat);
      if v.Some? {
        values := values + [Assignment(fs[i].column, v.value)];
      }
      i := i + 1;
    }
    assert fs[..i] == fs;
  }

  /**
   * One step of the `save_record` loop: a non-empty field is resolved through
   * its lookup list, read as a boolean token, parsed as a number, or kept as typed.
   */
  method CoerceInput(f: FormField, lookups: Lookups, isFloat: string -> bool) returns (v: Option<Value>)
    ensures v == CoerceField(f, lookups, isFloat)
  {
    v := None;
    if f.input != "" {
      if f.column in ForeignKeyColumns && IsCombobox(FormWidget(f.column, f.dataType)) {
        var items := RowsFor(lookups, SourceOf(f.column).value);
        var j := 0;
        while j < |items|
          invariant 0 <= j <= |items|
          invariant forall k | 0 <= k < j :: Label(items[k]) != f.input
        {
          if Label(items[j]) == f.input {
            FirstLabelMatch(items, j, f.input);
            v := Some(VInt(items[j].id));
            break;
          }
          j := j + 1;
        }
      } else if IsBoolToken(f.input) {
        v := Some(VBool(Upper(f.input) == "TRUE"));
      } else if HoldsNumber(f.dataType) {
        var n := ParseInt(f.input);
        if n.Some? {
          v := Some(VInt(n.value));
        } else if isFloat(f.input) {
          v := Some(VFloat(f.input));
        } else {
          v := Some(VText(f.input));
        }
      } else {
        v := Some(VText(f.input));
      }
    }
  }

  /** The first row with a given label is the one the lookup returns. */
  lemma {:induction false} FirstLabelMatch(rows: seq<LookupRow>, j: nat, choice: string)
    requires j < |rows| && Label(rows[j]) == choice
    requires forall k | 0 <= k < j :: Label(rows[k]) != choice
    ensures LookupLabel(rows, choice) == Some(rows[j].id)
  {
    if j > 0 {
      assert forall k | 0 <= k < j - 1 :: rows[1..][k] == rows[k + 1];
      FirstLabelMatch(rows[1..], j - 1, choice);
    }
  }
}
