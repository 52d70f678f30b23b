# Dog kennel database client — decision rules

`app.py` is a Tkinter window over a PostgreSQL database of a dog kennel:
breeds, dogs, parents, exhibitions and a medicine book. Most of it is widget
and database plumbing. The rules buried in its callbacks are modelled here as
self-contained Dafny, with what they guarantee proved:

- **Table reload** (`load_table_data`). The filter map and the sort state
  become a `SELECT * FROM <table> [WHERE …] [ORDER BY …]` statement and its
  parameter list. Each filter value's operator comes from a priority chain:
  1. a TRUE/FALSE token;
  2. a key-named column, which gives integer equality or a substring match;
  3. a gender or medal token;
  4. otherwise a substring match.

  Modules `FilterQuery` and `App`.
- **Sort and filter state** (`sort_by_column`, `reset_filters`,
  `on_table_select`, `apply_filters`). Class `App.DogBreedingApp` holds
  `current_table`, `current_filter`, `sort_column` and `sort_reverse`. Its
  methods update those fields in place.
- **Filter dialog validation** (`apply_filters`). A bad date or a non-number
  in a numeric column aborts the apply and changes nothing. Otherwise the
  filter map is replaced by exactly the non-empty values. Module
  `FilterDialog`.
- **General add-record form** (`create_general_form` / `save_record`).
  - Which columns get a field, and which widget each gets.
  - How each widget string is coerced: a foreign-key label, a boolean token,
    int, then float, then the raw text.
  - Foreign-key labels have the form `"<name> (ID: <id>)"`. Such a label
    determines its row, so choosing a label always stores that row's id.

  Module `RecordForm`.
- **Dog + exhibition form** (`create_dog_exhibition_form` / `save_all`).
  - Coercion of the dog's fields.
  - The check of required fields `id_breed`, `owner`, `assesment` and
    `gender`.
  - The rule deciding whether an exhibition row is inserted after the dog.

  Module `DogForm`.
- **Report sort** (`show_report_dialog` / `generate_report`). The chosen sort
  label resolves to a result column, falling back to the first option. An
  `ORDER BY <field> DESC|ASC` suffix is appended to the opaque base query.
  Module `Reports`.
- **Error message shortening** (`execute_sql`). Module `ErrorMessages`.

Python's string operations that the rules use are in `Strings`:
- `str.upper`, `in`, `startswith`/`endswith` and `" ".join`;
- `int()` of a string, as a simplified decimal parser;
- `str()` of an int.

Python dictionaries whose insertion order matters are ordered sequences of
items. The reloads and inserts are not executed: the methods return the
statement or value dictionary they would pass to the database.

The sort-header behaviour follows the code. Two clicks on the column that is
already sorted restore the direction it had (`App.TwoClicksRestore`). A new
column is always sorted ascending first, so two clicks on it leave it
descending (`App.RepeatedClicks`).

## Model

| member | source | states |
|---|---|---|
| Strings.Upper | app.py:189 | `str.upper` keeps the length and maps each character: ASCII letters, plus the dotless i and the long s, which Python upper-cases to I and S. |
| Strings.ParseInt | app.py:195 | `int(value)` accepts only a non-blank string once surrounding whitespace (space, tab, LF, VT, FF, CR) is stripped (a simplified grammar: one sign, at most 4300 decimal digits, single underscores between digits). |
| Strings.IntToString | app.py:327 | `str(id)` is non-empty and ends in a digit. It starts with a minus iff the integer is negative, and every later character is a digit. |
| Strings.ParseIntRoundTrip | app.py:195 | `int(str(n)) == n` for every integer of at most 4300 digits. |
| Strings.DigitCountOfDigits | app.py:195 | In a string of digits every character counts towards the digit limit. |
| Strings.TooManyDigitsRejected | app.py:195 | A number written with more than 4300 digits, signed or not, makes `int()` raise ValueError. |
| Strings.IntToStringInjective | app.py:327 | Different integers print differently. |
| Strings.BoolTokenSpellings | app.py:189-191 | `true`, `True`, `FALSE` and `fAlSe` are tokens; `truth` and `t` are not. |
| FilterQuery.KennelKeyColumns | app.py:192 | id_breed, id_mother, id_father, id_dog, id_illness and id_exhibition are key-named; owner, gender, medal and a bare `id` are not. |
| FilterQuery.FilterCondition | app.py:189-212 | Priority chain for one value. TRUE/FALSE in any case gives equality with the boolean `upper() == 'TRUE'`, whatever the column. A key-named column gives integer equality iff the value parses as an int. The value must not be a bool token; otherwise the key column gives `::text ILIKE '%v%'`. Exact equality on the raw value holds only for M/F/Gold/Silver/Bronze on other columns. Every remaining case gives ILIKE with `%v%`. |
| FilterQuery.FilterConditions | app.py:186-212 | There are never more conditions than filter items (exactly one per non-empty value is `ConditionsFollowNonEmptyEntries`). |
| FilterQuery.NonEmptyEntries | app.py:187 | The kept items have non-empty values and are items of the map. |
| FilterQuery.WhereClause | app.py:214-215 | The WHERE clause is absent iff every filter value is empty. Otherwise it is ` WHERE ` followed by the conditions joined with ` AND `, in map order. |
| FilterQuery.OrderClause | app.py:218-220 | ORDER BY is present iff a non-empty sort column is set. It starts with ` ORDER BY <col> ` and ends in DESC iff `sort_reverse`, ASC iff not. |
| FilterQuery.FilterConditionsAppend | app.py:186 | Conditions follow map order: the conditions of a concatenation are the concatenated conditions. |
| FilterQuery.ConditionsFollowNonEmptyEntries | app.py:186-212 | Exactly one condition per non-empty value: there are as many conditions as non-empty items, and the k-th condition is that of the k-th non-empty item. |
| FilterQuery.NonEmptyEntriesAppend | app.py:187 | Dropping empty values commutes with concatenation. |
| FilterQuery.NonEmptyEntriesDistinct | app.py:186-187 | Dropping empty values keeps a dictionary's keys distinct. |
| FilterQuery.NonEmptyEntriesIdentity | app.py:187 | A map with no empty value loses nothing. |
| FilterQuery.NoConditionsIffAllEmpty | app.py:186-215 | There are no conditions iff every value is empty. |
| FilterQuery.SelectShape | app.py:181-223 | The statement is `SELECT * FROM <table>` + WHERE clause + ORDER BY clause, with the parameters of the conditions. |
| FilterQuery.TableQueryFor | app.py:181-222 | The statement starts with `SELECT * FROM <table>` and has one parameter per non-empty filter value. |
| FilterQuery.JoinOptionalParts | app.py:222 | `" ".join` of the head and the optional WHERE and ORDER BY parts puts a single space before each part present. |
| FilterQuery.JoinOptionalPart | app.py:222 | Joining at most one more part puts a single space before it, if present. |
| FilterQuery.ConditionFor | app.py:189-212 | The branch chain of the loop body yields the text and parameter of `FilterCondition`. |
| FilterQuery.CollectConditions | app.py:186-212 | The filter loop yields the condition texts and the parameters of `FilterConditions`, in map order. Its invariant: they are those of the items seen so far. |
| FilterQuery.BuildSelect | app.py:181-223 | The builder loop produces exactly `TableQueryFor(table, filter, sort)`. Its invariant: the conditions and parameters so far are those of the items seen. |
| FilterQuery.IdColumnIntegerFilter | app.py:192-197 | A decimal integer of at most 4300 digits on a key-named column filters by integer equality with that integer. |
| FilterQuery.OverlongNumberFilteredAsText | app.py:192-200 | A run of more than 4300 digits on a key-named column fails `int()` and falls back to `::text ILIKE '%v%'`. |
| FilterQuery.BoolTokenWins | app.py:189-191 | A boolean token wins over every other rule, key-named columns included. |
| FilterDialog.NoLetterINotNumeric | app.py:747 | A type name without the letter i is never numeric. |
| FilterDialog.NumericTypeNames | app.py:747 | integer, numeric(10,2), serial, bigint and smallint are numeric. |
| FilterDialog.NonNumericTypeNames | app.py:747 | text, date, boolean and varchar are not numeric. |
| FilterDialog.Screen | app.py:733-757 | Verdict on one field: empty is skipped. A `date` column with an unparsable date rejects with BadDate, and only that case does. BadNumber iff the value is non-empty, the type is not `date` and does not mention bool, the column is not gender or medal, the type is numeric and the value is not a float; the error then names that column. A numeric non-date column with a float value is kept. |
| FilterDialog.ValidateFilters | app.py:722-759 | A successful apply stores at most one item per field, and every stored value is non-empty. |
| FilterDialog.FailurePersists | app.py:733-757 | Once a prefix of the fields aborts, the whole apply aborts with that error. |
| FilterDialog.SucceedsIffNoReject | app.py:722-759 | The apply succeeds iff no field is rejected. |
| FilterDialog.FailureNamesFirstReject | app.py:733-757 | An aborted apply reports the first rejected field's error. |
| FilterDialog.BadNumberAbortsApply | app.py:733-757 | When the first rejected field is a numeric field whose value is not a number, the whole apply aborts with BadNumber naming that column. |
| FilterDialog.SuccessKeepsNonEmptyValues | app.py:733-759 | A successful apply stores exactly the non-empty values, as typed, in field order. |
| FilterDialog.StoredFiltersAllApply | app.py:759 | Every stored value yields one condition at reload. Distinct dialog columns give a filter map with distinct keys. |
| FilterDialog.CollectFilters | app.py:721-758 | The dialog loop, with early returns on a bad date or number, equals `ValidateFilters`. |
| RecordForm.SourceOf | app.py:527-535 | A column has a lookup list iff it is one of id_breed, id_mother, id_father, id_dog, id_illness. |
| RecordForm.ShownInForm | app.py:465-466 | A column that gets a field never uses the illness list, and uses the living-dogs list only for id_mother or id_father. |
| RecordForm.FormWidget | app.py:473-506 | A date picker iff the type mentions date. A combobox iff, failing that, the type mentions bool or the column is gender, medal or a foreign key. A lookup list iff the type mentions neither date nor bool and the column is a foreign key; it is the list `SourceOf` names. A bool type offers TRUE/FALSE, gender M/F, and medal an empty choice, Gold, Silver and Bronze. |
| RecordForm.LookupLabel | app.py:540-543 | A label is found iff some row has exactly that label; the id returned belongs to such a row. |
| RecordForm.Label | app.py:528 | A label starts with `<name> (ID: ` and ends with `)`. |
| RecordForm.LabelDeterminesRow | app.py:528 | `"<name> (ID: <id>)"` is injective: equal labels mean equal rows. |
| RecordForm.ForeignKeyRoundTrip | app.py:526-543 | Looking up a listed row's label returns that row's id. The label-to-id dictionary therefore stores the same id whichever duplicate row it kept. |
| RecordForm.CoerceField | app.py:519-556 | The value of one field. Empty is left out. A foreign-key choice gives the id of the row with that exact label, or is left out if none matches. Otherwise a boolean iff a TRUE/FALSE token. An int iff numeric type, not a token, and `int()` parses. A float iff numeric type, `int()` fails and `float()` succeeds. Otherwise the raw text. |
| RecordForm.ForeignKeyFieldResolves | app.py:523-543 | A foreign-key field holding a listed row's label stores that row's id. |
| RecordForm.NumericFieldRoundTrip | app.py:548-550 | A decimal integer of at most 4300 digits typed into a numeric non-lookup field is stored as that integer. |
| RecordForm.CoercedRow | app.py:516-556 | The values dictionary has at most one item per field. |
| RecordForm.CoercedRowHasEveryKeptField | app.py:519-556 | Every field that is not left out is in the values dictionary with its coerced value. |
| RecordForm.CoercedRowOnlyKeptFields | app.py:519-556 | Every item of the dictionary comes from a field and carries that field's coerced value. |
| RecordForm.CoercedRowDistinct | app.py:516-556 | Distinct form columns give distinct dictionary keys: the row is a dictionary. |
| RecordForm.CoercedRowNeverEmptyText | app.py:519-556 | The dictionary never holds an empty string: an empty field is left out. |
| RecordForm.EmptyFormInsertsNothing | app.py:519-558 | A form with every field empty has an empty dictionary, so nothing is inserted. |
| RecordForm.SaveRecordValues | app.py:516-556 | The `save_record` loop produces exactly `CoercedRow`. |
| RecordForm.CoerceInput | app.py:520-556 | The loop body, including the search through the label list, equals `CoerceField`. |
| RecordForm.FirstLabelMatch | app.py:540-543 | The first row whose label matches is the one the lookup returns. |
| DogForm.DogWidget | app.py:311-331 | Dog tab widgets: a date picker iff the type mentions date. The breed list iff the column is id_breed and the type mentions neither date nor bool. Free text iff none of date, bool, gender, alive, id_breed applies. |
| DogForm.ShownInDogForm | app.py:305-306 | Only the `id_dog` column can be left without a field (when it is serial). |
| DogForm.DogEntries | app.py:304-306 | The dog tab has a field for exactly the columns that are shown: every field is a shown column, and every shown column has a field. |
| DogForm.DogEntriesAppend | app.py:304-306 | The fields of a concatenation are the concatenated fields, so column order is kept. |
| DogForm.CoerceDogField | app.py:371-389 | One dog field. Empty is left out. The breed list stores the id of the row with that exact label, or leaves the field out. Otherwise a boolean iff a TRUE/FALSE token, else the raw text. No numeric coercion, and never an empty string. |
| DogForm.BreedChoiceAnyRow | app.py:377-383 | Choosing a breed's label stores that breed's id. |
| DogForm.DogValues | app.py:370-389 | The dog's dictionary has at most one item per field. |
| DogForm.ValueOf | app.py:394 | A dictionary holds a value for a column iff it has an item with that column. The value is that item's. |
| DogForm.AbsentColumnHasNoValue | app.py:394 | A column with no field has no value in the dog's dictionary. |
| DogForm.DogValuesLookup | app.py:370-389 | With distinct columns, the dog's dictionary holds for each field exactly its coerced value. |
| DogForm.DogValuesNeverEmptyText | app.py:384-389 | The dog's dictionary never holds an empty string. |
| DogForm.FirstUnset | app.py:393-396 | Some required column is unset iff one is reported. The reported column is unset and every earlier one is set. |
| DogForm.RequiredUnsetIffNotStored | app.py:392-396 | For the dog's dictionary, a required column is unset iff its field coerced to nothing. The `== ''` test never fires. |
| DogForm.MissingColumnIsUnset | app.py:394 | A required column the table lacks is always reported unset. |
| DogForm.ExhibitionForm | app.py:342-347 | The exhibition tab has four fields with distinct columns; every one except medal is required. |
| DogForm.ExhibitionValues | app.py:419-422 | The exhibition dictionary has at most one item per field. |
| DogForm.ExhibitionValuesKeepRule | app.py:418-422 | Every required field and every non-empty optional field is in the dictionary with the string typed, and nothing else is. |
| DogForm.ExhibitionValuesAppend | app.py:418-422 | The dictionary of a concatenation is the concatenated dictionaries, so field order is kept. |
| DogForm.ExhibitionInsert | app.py:412-424 | An exhibition row is inserted only when the dog id is truthy and some required field is filled. Its dictionary then ends with `id_dog`. |
| DogForm.ExhibitionTabRule | app.py:412-424 | For the real tab: an insert happens iff the dog id is truthy and one of date, mark or name is non-empty. The row is date, mark, the medal only if chosen, name, then the dog id. |
| DogForm.ExhibitionTabValues | app.py:418-422 | For the real tab the dictionary is date, mark, the medal only when chosen, then name. |
| DogForm.ExhibitionTabFilled | app.py:412-416 | The real tab counts as filled iff date, mark or name is non-empty. |
| DogForm.MedalAloneSavesNoExhibition | app.py:412-417 | Choosing only a medal saves no exhibition. |
| DogForm.SaveAllOutcome | app.py:369-424 | Saving aborts only by naming one of id_breed, owner, assesment or gender that has no stored value, with every earlier required column set. Otherwise every required column has a value, the dog's dictionary is inserted, then the exhibition row per the exhibition rule. |
| DogForm.CoerceDogInput | app.py:371-389 | The dog loop body, including the breed-label search, equals `CoerceDogField`. |
| DogForm.CollectDogValues | app.py:370-389 | The dog loop produces exactly `DogValues`. |
| DogForm.CheckRequired | app.py:392-396 | The required-field loop returns the first unset required column. |
| DogForm.ExhibitionFilled | app.py:412-416 | The flag loop is true iff some required exhibition field is non-empty. |
| DogForm.CollectExhibitionValues | app.py:418-422 | The exhibition loop produces exactly `ExhibitionValues`. |
| DogForm.SaveAll | app.py:369-424 | `save_all` rejects naming the first unset required column. Otherwise it saves the dog's dictionary and, per the exhibition rule, the exhibition row. |
| Reports.SortOptions | app.py:907-930 | Every report lists at least one sort choice. All fields are non-empty and labels are distinct within a report. |
| Reports.FirstMatch | app.py:952-956 | No match iff no option has the label. Otherwise the result is the field of the first option with that label. |
| Reports.SortField | app.py:950-960 | An unknown label falls back to the first option's field. The result is always the first field or the field paired with the chosen label. |
| Reports.OrderKeyword | app.py:961 | DESC iff the order choice is "По убыванию", ASC otherwise. |
| Reports.ReportQuery | app.py:964 | The statement is the base query, then ` ORDER BY <field> `, then the order keyword, and nothing else. |
| Reports.LabelSelectsItsField | app.py:952-960 | With distinct labels and non-empty fields, choosing an option's label sorts by that option's field. |
| Reports.ReportChoiceSortsByItsField | app.py:907-960 | In each of the three reports, every listed choice sorts by its own column. |
| Reports.DefaultReportOrder | app.py:937-964 | With the preselected choices, a report sorts by its first option, descending. |
| ErrorMessages.TruncateMessage | app.py:52-53 | A message of at most 200 characters is unchanged. A longer one becomes exactly 203 characters: its first 200, then `...`. |
| App.NextSort | app.py:253-258 | A header click always makes that column the sort column. It flips the direction if the column was already sorted, and sorts ascending otherwise. |
| App.TwoClicksRestore | app.py:253-258 | Two clicks on the sorted column restore the original state. |
| App.RepeatedClicks | app.py:253-258 | After k clicks the column is sorted. On the sorted column the direction has flipped k times. On a new column it is descending iff k is even. |
| App.LoadQuery | app.py:171-223 | No statement iff no table is selected; otherwise the parameters are those of the filter's conditions. |
| App.DogBreedingApp.constructor | app.py:27-30 | A new window has no table, no filter and no sort. |
| App.DogBreedingApp.LoadTableData | app.py:166-223 | A reload runs the statement for the current state. |
| App.DogBreedingApp.SelectTable | app.py:159-163 | A selection makes that table current and the reload follows. With nothing selected the table stays and nothing is loaded. Filter and sort are kept, and the filter map stays a dictionary. |
| App.DogBreedingApp.SortByColumn | app.py:253-258 | The sort state moves by `NextSort`. Table and filter are unchanged, the filter map stays a dictionary, and the reload follows. |
| App.DogBreedingApp.ResetFilters | app.py:784-787 | The filter map becomes empty (a dictionary), `sort_column` None and `sort_reverse` false, and the reload follows. |
| App.DogBreedingApp.ApplyFilters | app.py:721-762 | An abort leaves the filter map as it was and reports the first bad field. Otherwise the map is replaced by the validated values, the count of filters is returned and the reload follows. With one dialog field per column the map stays a dictionary either way. |
| App.AppliedFiltersAllBecomeConditions | app.py:759-760 | After a successful apply with a table selected, the reload has one parameter per applied filter. |
| App.ResetLoadsWholeTable | app.py:784-789 | After a reset the statement is the bare `SELECT * FROM <table>`, with no parameters. |
| App.SortedReloadOrdersByColumn | app.py:253-258 | After a header click, the statement ends with `ORDER BY <column> …`. It ends in DESC iff the new state is reversed. |

## Left out

- Tkinter and tkcalendar widgets, layout, dialogs and message boxes. The
  strings read from widgets are inputs to the model.
- `psycopg2`: the connection, cursors, commit and rollback, and
  `information_schema` introspection. Column metadata and lookup rows are
  inputs. The id the dog INSERT returns is an input to `DogForm.SaveAll`, and
  the atomicity of the dog + exhibition save is the database's.
- The INSERT statement text that `sql.SQL(...).format` composes, with its
  quoted identifiers and placeholders. The model stops at the ordered
  column/value dictionary that is passed to it.
- The three report SQL templates. The base query is opaque text; only the
  ORDER BY suffix is modelled.
- CSV export through pandas, and `show_report_results`.
- `apply_search` and `delete_record`: database-only paths with no decision
  rule beyond building a statement.
- `load_table_data` with a custom query, which only `apply_search` uses.
- Python `float()` and `datetime.strptime` are not modelled. They are the
  parameters `isFloat` and `isDate`, standing for "parses".
- Strings.ParseInt: models Python's `int()` on strings with a simplified
  grammar. It covers stripping of space, tab, LF, VT, FF and CR, one sign,
  ASCII decimal digits and single underscores between digits, and the default
  limit of 4300 digits. It leaves out non-ASCII digits, Unicode whitespace, a
  limit changed through `sys.set_int_max_str_digits`, and Python versions
  before 3.11, which have no limit.
- Strings.IntToString: `str()` raising ValueError for an integer of more than
  4300 digits is not modelled; database ids are far smaller.
- Strings.Upper: models `str.upper` only for ASCII letters, the dotless i and
  the long s. Every other character is kept as is. These are the only
  characters whose upper case is an ASCII letter, so the TRUE/FALSE token
  test is exact. Other upper-case results are not modelled.
- Python dictionaries assign by key. The filter map, the dialog's fields and
  a form's columns come from distinct table columns. Lemmas that need
  distinct keys take it as a precondition; the ordered item lists do not
  enforce it.
- The dog id is compared by truthiness only; the dog insert's own failure
  paths are database behaviour.
- The unconditional `str(e)[:200] + "..."` and `[:100] + "..."` messages of
  other handlers are left out; they are message formatting only.
