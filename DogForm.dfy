/**
 * The two-tab "add dog" form (`create_dog_exhibition_form` and its `save_all`): the
 * widgets of the dog tab, how their strings become the values of the dog's
 * INSERT, the required-field check that can abort the save, and the rule that
 * decides whether an exhibition row is inserted after the dog.
 */
module DogForm {
  import opened Wrappers
  import opened Strings
  import opened RecordForm

  /** The widget the dog tab shows for a column of `dogs`, first matching rule wins. */
  function DogWidget(column: string, dataType: string): (r: Widget)
    ensures r.DatePicker? <==> Contains(dataType, "date")
    ensures r.ForeignKeyChoice? <==> !Contains(dataType, "date") && !Contains(dataType, "bool") && column == "id_breed"
    ensures r.ForeignKeyChoice? ==> r.source == Breeds
    ensures r.TextEntry? <==>
              !Contains(dataType, "date") && !Contains(dataType, "bool") && column !in ["gender", "alive", "id_breed"]
  {
    if Contains(dataType, "date") then DatePicker
    else if Contains(dataType, "bool") then Choice(["TRUE", "FALSE"])
    else if column == "gender" then Choice(["M", "F"])
    else if column == "alive" then Choice(["TRUE", "FALSE"])
    else if column == "id_breed" then ForeignKeyChoice(Breeds)
    else TextEntry
  }

  /** Only a serial `id_dog` column is left without a field. */
  predicate ShownInDogForm(column: string, dataType: string)
    ensures !ShownInDogForm(column, dataType) ==> column == "id_dog"
  {
    !(column == "id_dog" && Contains(dataType, "serial"))
  }

  /** The fields of the dog tab, in column order. */
  function DogEntries(columns: seq<FormField>): (r: seq<FormField>)
    ensures |r| <= |columns|
    ensures forall f | f in r :: f in columns && ShownInDogForm(f.column, f.dataType)
    ensures forall f | f in columns && ShownInDogForm(f.column, f.dataType) :: f in r
  {
    if columns == [] then []
    else
      var f := columns[|columns| - 1];
      DogEntries(columns[..|columns| - 1]) + (if ShownInDogForm(f.column, f.dataType) then [f] else [])
  }

  /** The fields of a concatenation are the concatenated fields: column order is kept. */
  lemma {:induction false} DogEntriesAppend(a: seq<FormField>, b: seq<FormField>)
    ensures DogEntries(a + b) == DogEntries(a) + DogEntries(b)
    decreases |b|
  {
    if b == [] {
      assert a + b == a;
    } else {
      var b' := b[..|b| - 1];
      assert (a + b)[..|a + b| - 1] == a + b';
      assert (a + b)[|a + b| - 1] == b[|b| - 1];
      DogEntriesAppend(a, b');
    }
  }

  /** The breed field shown as a choice list of breed labels. */
  predicate IsBreedChoice(f: FormField) {
    f.column == "id_breed" && IsCombobox(DogWidget(f.column, f.dataType))
  }

  /**
   * The value `save_all` stores for one dog field, None when it is left out:
   * an empty input, or a breed label that matches no breed. Nothing is read
   * as a number here; a non-token input stays the string typed.
   */
  function CoerceDogField(f: FormField, breeds: seq<LookupRow>): (r: Option<Value>)
    ensures f.input == "" ==> r.None?
    ensures r.Some? ==> r.value != VText("")
    ensures IsBreedChoice(f) && f.input != "" ==>
              && (r.None? <==> forall k | 0 <= k < |breeds| :: Label(breeds[k]) != f.input)
              && (r.Some? ==>
                    && r.value.VInt?
                    && exists k | 0 <= k < |breeds| :: Label(breeds[k]) == f.input && breeds[k].id == r.value.n)
    ensures !IsBreedChoice(f) && f.input != "" ==>
              && r.Some?
              && (r.value.VBool? <==> IsBoolToken(f.input))
              && (r.value.VBool? ==> (r.value.b <==> Upper(f.input) == "TRUE"))
              && (!r.value.VBool? ==> r.value == VText(f.input))
  {
    if IsBreedChoice(f) then
      if f.input == "" then None
      else
        match LookupLabel(breeds, f.input)
        case Some(id) => Some(VInt(id))
        case None => None
    else if f.input == "" then None
    else if IsBoolToken(f.input) then Some(VBool(Upper(f.input) == "TRUE"))
    else Some(VText(f.input))
  }

  /**
   * The breed list is a dictionary from label to id; whichever breed row with
   * the chosen label the dictionary kept, the stored id is that row's id.
   */
  lemma BreedChoiceAnyRow(f: FormField, breeds: seq<LookupRow>, k: nat)
    requires IsBreedChoice(f)
    requires k < |breeds| && f.input == Label(breeds[k])
    ensures CoerceDogField(f, breeds) == Some(VInt(breeds[k].id))
  {
    ForeignKeyRoundTrip(breeds, k);
  }

  /** The dog's values dictionary: one item per field that is not left out, in field order. */
  function DogValues(fs: seq<FormField>, breeds: seq<LookupRow>): (r: seq<Assignment>)
    ensures |r| <= |fs|
  {
    if fs == [] then []
    else
      var f := fs[|fs| - 1];
      DogValues(fs[..|fs| - 1], breeds) + LastItem(f, breeds)
  }

  /** The value a dictionary holds for a column: the first item with that column. */
  function ValueOf(row: seq<Assignment>, column: string): (r: Option<Value>)
    ensures r.Some? <==> exists k | 0 <= k < |row| :: row[k].column == column
    ensures r.Some? ==> exists k | 0 <= k < |row| :: row[k] == Assignment(column, r.value)
  {
    if row == [] then None
    else if row[0].column == column then Some(row[0].value)
    else
      var r := ValueOf(row[1..], column);
      assert forall k | 0 <= k < |row[1..]| :: row[1..][k] == row[k + 1];
      r
  }

  lemma {:induction false} ValueOfAppend(a: seq<Assignment>, b: seq<Assignment>, column: string)
    ensures ValueOf(a + b, column) == if ValueOf(a, column).Some? then ValueOf(a, column) else ValueOf(b, column)
  {
    if a == [] {
      assert a + b == b;
    } else {
      assert (a + b)[0] == a[0];
      assert (a + b)[1..] == a[1..] + b;
      ValueOfAppend(a[1..], b, column);
    }
  }

  /** A dictionary without an item for a column holds no value for it. */
  lemma NoItemForColumn(row: seq<Assignment>, column: string)
    requires forall a | a in row :: a.column != column
    ensures ValueOf(row, column) == None
  {
  }

  /** A field's item of the dictionary, none when the field is left out. */
  function LastItem(f: FormField, breeds: seq<LookupRow>): (r: seq<Assignment>)
    ensures forall a | a in r :: a.column == f.column
    ensures ValueOf(r, f.column) == CoerceDogField(f, breeds)
  {
    match CoerceDogField(f, breeds)
    case Some(v) => [Assignment(f.column, v)]
    case None => []
  }

  /** A column no field has gets no value in the dog's dictionary. */
  lemma {:induction false} AbsentColumnHasNoValue(fs: seq<FormField>, breeds: seq<LookupRow>, column: string)
    requires forall i | 0 <= i < |fs| :: fs[i].column != column
    ensures ValueOf(DogValues(fs, breeds), column) == None
  {
    if fs != [] {
      var init := fs[..|fs| - 1];
      var tail := LastItem(fs[|fs| - 1], breeds);
      assert DogValues(fs, breeds) == DogValues(init, breeds) + tail;
      assert forall i | 0 <= i < |init| :: init[i] == fs[i];
      AbsentColumnHasNoValue(init, breeds, column);
      ValueOfAppend(DogValues(init, breeds), tail, column);
    }
  }

  /** With distinct columns, the dictionary holds for each field exactly the value it coerces to. */
  lemma {:induction false} DogValuesLookup(fs: seq<FormField>, breeds: seq<LookupRow>, i: nat)
    requires forall p, q | 0 <= p < q < |fs| :: fs[p].column != fs[q].column
    requires i < |fs|
    ensures ValueOf(DogValues(fs, breeds), fs[i].column) == CoerceDogField(fs[i], breeds)
  {
    if i < |fs| - 1 {
      var init := fs[..|fs| - 1];
      assert init[i] == fs[i];
      assert forall p, q | 0 <= p < q < |init| :: init[p].column != init[q].column by {
        assert forall p | 0 <= p < |init| :: init[p] == fs[p];
      }
      DogValuesLookup(init, breeds, i);
      EarlierFieldKeepsValue(fs, breeds, i);
    } else {
      LastFieldValue(fs, breeds);
    }
  }

  /** A field before the last keeps the value it has without the last field. */
  lemma EarlierFieldKeepsValue(fs: seq<FormField>, breeds: seq<LookupRow>, i: nat)
    requires i < |fs| - 1
    requires fs[i].column != fs[|fs| - 1].column
    ensures ValueOf(DogValues(fs, breeds), fs[i].column) == ValueOf(DogValues(fs[..|fs| - 1], breeds), fs[i].column)
  {
    var tail := LastItem(fs[|fs| - 1], breeds);
    ValueOfAppend(DogValues(fs[..|fs| - 1], breeds), tail, fs[i].column);
    NoItemForColumn(tail, fs[i].column);
  }

  /** The last field, whose column no earlier field has, gets exactly its coerced value. */
  lemma LastFieldValue(fs: seq<FormField>, breeds: seq<LookupRow>)
    requires |fs| > 0
    requires forall p | 0 <= p < |fs| - 1 :: fs[p].column != fs[|fs| - 1].column
    ensures ValueOf(DogValues(fs, breeds), fs[|fs| - 1].column) == CoerceDogField(fs[|fs| - 1], breeds)
  {
    var init := fs[..|fs| - 1];
    var last := fs[|fs| - 1];
    ValueOfAppend(DogValues(init, breeds), LastItem(last, breeds), last.column);
    assert forall p | 0 <= p < |init| :: init[p] == fs[p];
    AbsentColumnHasNoValue(init, breeds, last.column);
  }

  /** The dog's dictionary never holds an empty string. */
  lemma {:induction false} DogValuesNeverEmptyText(fs: seq<FormField>, breeds: seq<LookupRow>)
    ensures forall k | 0 <= k < |DogValues(fs, breeds)| :: DogValues(fs, breeds)[k].value != VText("")
  {
    if fs != [] {
      DogValuesNeverEmptyText(fs[..|fs| - 1], breeds);
    }
  }

  /** A dictionary that holds no empty string yields none for any column. */
  lemma NoEmptyTextStored(row: seq<Assignment>)
    requires forall k | 0 <= k < |row| :: row[k].value != VText("")
    ensures forall c :: ValueOf(row, c) != Some(VText(""))
  {
    forall c ensures ValueOf(row, c) != Some(VText("")) {
      if ValueOf(row, c).Some? {
        var k :| 0 <= k < |row| && row[k] == Assignment(c, ValueOf(row, c).value);
      }
    }
  }

  /** The columns the dog tab must have filled in, in the order they are checked. */
  const RequiredDogFields: seq<string> := ["id_breed", "owner", "assesment", "gender"]

  /** A required column is unset when the dictionary has no item for it or holds an empty string. */
  predicate Unset(row: seq<Assignment>, column: string) {
    ValueOf(row, column).None? || ValueOf(row, column) == Some(VText(""))
  }

  /** The first of `fields` that is unset in the dictionary. */
  function FirstUnset(row: seq<Assignment>, fields: seq<string>): (r: Option<string>)
    ensures r.Some? <==> exists i | 0 <= i < |fields| :: Unset(row, fields[i])
    ensures r.Some? ==> exists i | 0 <= i < |fields| ::
              fields[i] == r.value && Unset(row, r.value) && forall j | 0 <= j < i :: !Unset(row, fields[j])
  {
    if fields == [] then None
    else if Unset(row, fields[0]) then Some(fields[0])
    else
      var r := FirstUnset(row, fields[1..]);
      assert forall i | 0 <= i < |fields[1..]| :: fields[1..][i] == fields[i + 1];
      if r.Some? then
        var i :| 0 <= i < |fields[1..]| &&
                 fields[1..][i] == r.value && Unset(row, r.value) && forall j | 0 <= j < i :: !Unset(row, fields[1..][j]);
        assert fields[i + 1] == r.value && forall j | 0 <= j < i + 1 :: !Unset(row, fields[j]);
        r
      else r
  }

  /**
   * For the dog's dictionary, the empty-string half of the required check
   * never fires: a required column is unset exactly when no value was stored
   * for it, and with distinct columns that is when its field coerced to nothing.
   */
  lemma RequiredUnsetIffNotStored(fs: seq<FormField>, breeds: seq<LookupRow>, i: nat)
    requires forall p, q | 0 <= p < q < |fs| :: fs[p].column != fs[q].column
    requires i < |fs|
    ensures Unset(DogValues(fs, breeds), fs[i].column) <==> CoerceDogField(fs[i], breeds).None?
  {
    DogValuesLookup(fs, breeds, i);
  }

  /** A required column with no field at all is always unset. */
  lemma MissingColumnIsUnset(fs: seq<FormField>, breeds: seq<LookupRow>, column: string)
    requires forall i | 0 <= i < |fs| :: fs[i].column != column
    ensures Unset(DogValues(fs, breeds), column)
  {
    AbsentColumnHasNoValue(fs, breeds, column);
  }

  /** One field of the exhibition tab: its column, whether it is required, and the string typed. */
  datatype ExhibitionEntry = ExhibitionEntry(column: string, required: bool, input: string)

  /** The exhibition tab: date, mark and name are required, the medal is optional. */
  function ExhibitionForm(date: string, mark: string, medal: string, name: string): (r: seq<ExhibitionEntry>)
    ensures |r| == 4
    ensures forall i | 0 <= i < |r| :: r[i].required <==> r[i].column != "medal"
    ensures forall i, j | 0 <= i < j < |r| :: r[i].column != r[j].column
  {
    [ ExhibitionEntry("date_exhibition", true, date), ExhibitionEntry("mark", true, mark),
      ExhibitionEntry("medal", false, medal), ExhibitionEntry("name", true, name) ]
  }

  /** The exhibition tab counts as filled when some required field is non-empty. */
  predicate AnyRequiredFilled(es: seq<ExhibitionEntry>) {
    exists i | 0 <= i < |es| :: es[i].required && es[i].input != ""
  }

  /** The exhibition's dictionary: every required field (even empty) and every non-empty optional one. */
  function ExhibitionValues(es: seq<ExhibitionEntry>): (r: seq<Assignment>)
    ensures |r| <= |es|
  {
    if es == [] then []
    else
      var e := es[|es| - 1];
      ExhibitionValues(es[..|es| - 1]) + (if e.input != "" || e.required then [Assignment(e.column, VText(e.input))] else [])
  }

  /** The dictionary of a concatenation is the concatenated dictionaries: field order is kept. */
  lemma {:induction false} ExhibitionValuesAppend(a: seq<ExhibitionEntry>, b: seq<ExhibitionEntry>)
    ensures ExhibitionValues(a + b) == ExhibitionValues(a) + ExhibitionValues(b)
    decreases |b|
  {
    if b == [] {
      assert a + b == a;
    } else {
      var b' := b[..|b| - 1];
      assert (a + b)[..|a + b| - 1] == a + b';
      assert (a + b)[|a + b| - 1] == b[|b| - 1];
      ExhibitionValuesAppend(a, b');
    }
  }

  /**
   * The keep rule: every required field and every non-empty optional field is
   * in the dictionary with the string typed, and nothing else is.
   */
  lemma {:induction false} ExhibitionValuesKeepRule(es: seq<ExhibitionEntry>)
    ensures forall i | 0 <= i < |es| && (es[i].required || es[i].input != "") ::
              Assignment(es[i].column, VText(es[i].input)) in ExhibitionValues(es)
    ensures forall a | a in ExhibitionValues(es) :: exists i | 0 <= i < |es| ::
              (es[i].required || es[i].input != "") && a == Assignment(es[i].column, VText(es[i].input))
  {
    if es != [] {
      var init := es[..|es| - 1];
      ExhibitionValuesKeepRule(init);
      assert forall i | 0 <= i < |init| :: init[i] == es[i];
    }
  }

  /** A single field contributes its item exactly when it is required or non-empty. */
  lemma ExhibitionValuesOne(e: ExhibitionEntry)
    ensures ExhibitionValues([e]) == if e.input != "" || e.required then [Assignment(e.column, VText(e.input))] else []
  {
    assert [e][..0] == [];
  }

  /** Python truthiness of the id `RETURNING id_dog` gave back: present and not zero. */
  predicate IsTruthyId(dogId: Option<int>) {
    dogId.Some? && dogId.value != 0
  }

  /**
   * The exhibition row inserted after the dog, if any: only when the dog got a
   * truthy id and the tab is filled, and then its dictionary ends with the dog's id.
   */
  function ExhibitionInsert(es: seq<ExhibitionEntry>, dogId: Option<int>): (r: Option<seq<Assignment>>)
    ensures r.Some? ==> IsTruthyId(dogId) && AnyRequiredFilled(es)
    ensures r.Some? ==> |r.value| > 0 && r.value[|r.value| - 1] == Assignment("id_dog", VInt(dogId.value))
  {
    if IsTruthyId(dogId) && AnyRequiredFilled(es) then
      var values := ExhibitionValues(es);
      if values == [] then None else Some(values + [Assignment("id_dog", VInt(dogId.value))])
    else None
  }

  /**
   * For the actual exhibition tab: a row is inserted exactly when the dog has a
   * truthy id and one of date, mark or name is non-empty; it then holds date,
   * mark, the medal only when one was chosen, name, and the dog's id.
   */
  lemma ExhibitionTabRule(date: string, mark: string, medal: string, name: string, dogId: Option<int>)
    ensures var r := ExhibitionInsert(ExhibitionForm(date, mark, medal, name), dogId);
            && (r.Some? <==> IsTruthyId(dogId) && (date != "" || mark != "" || name != ""))
            && (r.Some? ==>
                  r.value ==
                    [Assignment("date_exhibition", VText(date)), Assignment("mark", VText(mark))] +
                    (if medal != "" then [Assignment("medal", VText(medal))] else []) +
                    [Assignment("name", VText(name)), Assignment("id_dog", VInt(dogId.value))])
  {
    var d, m, md, n := Assignment("date_exhibition", VText(date)), Assignment("mark", VText(mark)),
                       Assignment("medal", VText(medal)), Assignment("name", VText(name));
    ExhibitionTabValues(date, mark, medal, name);
    ExhibitionTabFilled(date, mark, medal, name);
    if IsTruthyId(dogId) {
      var id := Assignment("id_dog", VInt(dogId.value));
      assert [d, m] + (if medal != "" then [md] else []) + [n] + [id] ==
             [d, m] + (if medal != "" then [md] else []) + [n, id];
    }
  }

  /** The exhibition tab's dictionary: date, mark, the medal only when chosen, and name. */
  lemma ExhibitionTabValues(date: string, mark: string, medal: string, name: string)
    ensures ExhibitionValues(ExhibitionForm(date, mark, medal, name)) ==
              [Assignment("date_exhibition", VText(date)), Assignment("mark", VText(mark))] +
              (if medal != "" then [Assignment("medal", VText(medal))] else []) +
              [Assignment("name", VText(name))]
  {
    var e0, e1, e2, e3 := ExhibitionEntry("date_exhibition", true, date), ExhibitionEntry("mark", true, mark),
                          ExhibitionEntry("medal", false, medal), ExhibitionEntry("name", true, name);
    ExhibitionValuesOne(e0);
    ExhibitionValuesOne(e1);
    ExhibitionValuesOne(e2);
    ExhibitionValuesOne(e3);
    ExhibitionValuesAppend([e0], [e1]);
    ExhibitionValuesAppend([e0, e1], [e2]);
    ExhibitionValuesAppend([e0, e1, e2], [e3]);
    assert [e0] + [e1] == [e0, e1];
    assert [e0, e1] + [e2] == [e0, e1, e2];
    assert [e0, e1, e2] + [e3] == ExhibitionForm(date, mark, medal, name);
    var front := [Assignment("date_exhibition", VText(date)), Assignment("mark", VText(mark))];
    var chosen := if medal != "" then [Assignment("medal", VText(medal))] else [];
    assert ExhibitionValues([e0, e1]) == front;
    assert ExhibitionValues([e0, e1, e2]) == front + chosen;
  }

  /** The exhibition tab counts as filled exactly when date, mark or name is non-empty. */
  lemma ExhibitionTabFilled(date: string, mark: string, medal: string, name: string)
    ensures AnyRequiredFilled(ExhibitionForm(date, mark, medal, name)) <==> date != "" || mark != "" || name != ""
  {
    var es := ExhibitionForm(date, mark, medal, name);
    if date != "" { assert es[0].required && es[0].input != ""; }
    else if mark != "" { assert es[1].required && es[1].input != ""; }
    else if name != "" { assert es[3].required && es[3].input != ""; }
  }

  /** Choosing only a medal saves no exhibition. */
  lemma MedalAloneSavesNoExhibition(medal: string, dogId: Option<int>)
    ensures ExhibitionInsert(ExhibitionForm("", "", medal, ""), dogId) == None
  {
    ExhibitionTabRule("", "", medal, "", dogId);
  }

  /** What `save_all` does: abort naming the first unset required column, or insert the dog and maybe an exhibition. */
  datatype SaveOutcome = Rejected(missing: string) | Saved(dog: seq<Assignment>, exhibition: Option<seq<Assignment>>)

  /**
   * What `save_all` does, with `dogId` standing for the id the database returns
   * for the inserted dog. Saving aborts exactly when one of id_breed, owner,
   * assesment or gender has no stored value, and then names the first such
   * column and inserts nothing; otherwise the dog's dictionary is inserted,
   * followed by the exhibition row when there is one.
   */
  function SaveAllOutcome(fs: seq<FormField>, breeds: seq<LookupRow>, es: seq<ExhibitionEntry>, dogId: Option<int>)
    : (r: SaveOutcome)
    ensures r.Rejected? ==>
              && r.missing in RequiredDogFields
              && ValueOf(DogValues(fs, breeds), r.missing).None?
              && forall i | 0 <= i < |RequiredDogFields| && RequiredDogFields[i] == r.missing ::
                   forall j | 0 <= j < i :: ValueOf(DogValues(fs, breeds), RequiredDogFields[j]).Some?
    ensures r.Saved? ==>
              && r.dog == DogValues(fs, breeds)
              && r.exhibition == ExhibitionInsert(es, dogId)
              && forall i | 0 <= i < |RequiredDogFields| :: ValueOf(r.dog, RequiredDogFields[i]).Some?
  {
    var dog := DogValues(fs, breeds);
    DogValuesNeverEmptyText(fs, breeds);
    NoEmptyTextStored(dog);
    match FirstUnset(dog, RequiredDogFields)
    case Some(column) => Rejected(column)
    case None => Saved(dog, ExhibitionInsert(es, dogId))
  }

  /**
   * One step of the dog loop of `save_all`: a breed choice is looked up among
   * the breed labels, any other non-empty input is a boolean token or kept as typed.
   */
  method CoerceDogInput(f: FormField, breeds: seq<LookupRow>) returns (v: Option<Value>)
    ensures v == CoerceDogField(f, breeds)
  {
    v := None;
    if f.column == "id_breed" && IsCombobox(DogWidget(f.column, f.dataType)) {
      if f.input != "" {
        var j := 0;
        while j < |breeds|
          invariant 0 <= j <= |breeds|
          invariant forall k | 0 <= k < j :: Label(breeds[k]) != f.input
        {
          if Label(breeds[j]) == f.input {
            FirstLabelMatch(breeds, j, f.input);
            v := Some(VInt(breeds[j].id));
            break;
          }
          j := j + 1;
        }
      }
    } else if f.input != "" {
      if IsBoolToken(f.input) {
        v := Some(VBool(Upper(f.input) == "TRUE"));
      } else {
        v := Some(VText(f.input));
      }
    }
  }

  /** The dog loop of `save_all`. */
  method CollectDogValues(fs: seq<FormField>, breeds: seq<LookupRow>) returns (values: seq<Assignment>)
    ensures values == DogValues(fs, breeds)
  {
    values := [];
    var i := 0;
    while i < |fs|
      invariant 0 <= i <= |fs|
      invariant values == DogValues(fs[..i], breeds)
    {
      assert fs[..i + 1][..i] == fs[..i];
      var v := CoerceDogInput(fs[i], breeds);
      if v.Some? {
        values := values + [Assignment(fs[i].column, v.value)];
      }
      i := i + 1;
    }
    assert fs[..i] == fs;
  }

  /** The required-field loop: the first required column that is unset, if any. */
  method CheckRequired(values: seq<Assignment>, fields: seq<string>) returns (missing: Option<string>)
    ensures missing == FirstUnset(values, fields)
  {
    var i := 0;
    while i < |fields|
      invariant 0 <= i <= |fields|
      invariant FirstUnset(values, fields) == FirstUnset(values, fields[i..])
    {
      assert fields[i..][1..] == fields[i + 1..];
      if Unset(values, fields[i]) {
        return Some(fields[i]);
      }
      i := i + 1;
    }
    return None;
  }

  /** The loop deciding whether the exhibition tab is filled. */
  method ExhibitionFilled(es: seq<ExhibitionEntry>) returns (filled: bool)
    ensures filled <==> AnyRequiredFilled(es)
  {
    filled := false;
    var i := 0;
    while i < |es|
      invariant 0 <= i <= |es|
      invariant forall j | 0 <= j < i :: !(es[j].required && es[j].input != "")
    {
      if es[i].required && es[i].input != "" {
        filled := true;
        break;
      }
      i := i + 1;
    }
  }

  /** The loop collecting the exhibition's dictionary. */
  method CollectExhibitionValues(es: seq<ExhibitionEntry>) returns (values: seq<Assignment>)
    ensures values == ExhibitionValues(es)
  {
    values := [];
    var i := 0;
    while i < |es|
      invariant 0 <= i <= |es|
      invariant values == ExhibitionValues(es[..i])
    {
      assert es[..i + 1][..i] == es[..i];
      if es[i].input != "" || es[i].required {
        values := values + [Assignment(es[i].column, VText(es[i].input))];
      }
      i := i + 1;
    }
    assert es[..i] == es;
  }

  /** `save_all`, with the dog's returned id as an input. */
  method SaveAll(fs: seq<FormField>, breeds: seq<LookupRow>, es: seq<ExhibitionEntry>, dogId: Option<int>)
    returns (outcome: SaveOutcome)
    ensures outcome == SaveAllOutcome(fs, breeds, es, dogId)
  {
    var dog := CollectDogValues(fs, breeds);
    var missing := CheckRequired(dog, RequiredDogFields);
    if missing.Some? {
      return Rejected(missing.value);
    }
    var filled := ExhibitionFilled(es);
    var exhibition: Option<seq<Assignment>> := None;
    if IsTruthyId(dogId) && filled {
      var values := CollectExhibitionValues(es);
      if values != [] {
        exhibition := Some(values + [Assignment("id_dog", VInt(dogId.value))]);
      }
    }
    return Saved(dog, exhibition);
  }
}
