/**
 * The sort step of the report dialog (`show_report_dialog` and its
 * `generate_report`): each report offers a fixed list of sort choices, the
 * chosen label is resolved to a result column, and an ORDER BY suffix is
 * appended to the report's base query, which is treated as opaque text.
 */
module Reports {
  import opened Wrappers
  import opened Strings

  /** The three reports: breeding pairs, elite dogs, service dogs. */
  datatype ReportKind = Breeding | Elite | Service

  /** A sort choice: the label shown in the list and the result column it sorts by. */
  datatype SortOption = SortOption(text: string, field: string)

  /** The sort choices of a report, in the order they are listed. */
  function SortOptions(kind: ReportKind): (r: seq<SortOption>)
    ensures |r| > 0
    ensures forall i | 0 <= i < |r| :: r[i].field != ""
    ensures forall i, j | 0 <= i < j < |r| :: r[i].text != r[j].text
  {
    match kind
    case Breeding =>
      [ SortOption("По сумме оценок", "сумма_оценок"),
        SortOption("По оценке кобеля", "оценка_кобеля"),
        SortOption("По оценке суки", "оценка_суки"),
        SortOption("По породе кобеля", "порода_кобеля"),
        SortOption("По породе суки", "порода_суки") ]
    case Elite =>
      [ SortOption("По сумме оценок", "сумма_оценок"),
        SortOption("По оценке кобеля", "оценка_кобеля"),
        SortOption("По оценке суки", "оценка_суки"),
        SortOption("По медалям кобеля", "медали_кобеля"),
        SortOption("По медалям суки", "медали_суки") ]
    case Service =>
      [ SortOption("По оценке собаки", "оценка"),
        SortOption("По тесту психики", "тест_психики"),
        SortOption("По породе", "порода"),
        SortOption("По владельцу", "владелец") ]
  }

  /** The order choice that sorts descending; it is also the one preselected. */
  const Descending: string := "По убыванию"

  /** The order choice that sorts ascending. */
  const Ascending: string := "По возрастанию"

  /** The field of the first option whose label equals `selected`. */
  function FirstMatch(options: seq<SortOption>, selected: string): (r: Option<string>)
    ensures r.None? <==> forall i | 0 <= i < |options| :: options[i].text != selected
    ensures r.Some? ==> exists i | 0 <= i < |options| ::
              options[i] == SortOption(selected, r.value) && forall j | 0 <= j < i :: options[j].text != selected
  {
    if options == [] then None
    else if options[0].text == selected then Some(options[0].field)
    else
      var r := FirstMatch(options[1..], selected);
      assert forall i | 0 <= i < |options[1..]| :: options[1..][i] == options[i + 1];
      if r.Some? then
        var i :| 0 <= i < |options[1..]| && options[1..][i] == SortOption(selected, r.value) &&
                 forall j | 0 <= j < i :: options[1..][j].text != selected;
        assert options[i + 1] == SortOption(selected, r.value) && forall j | 0 <= j < i + 1 :: options[j].text != selected;
        r
      else r
  }

  /**
   * The column the report is sorted by: the field paired with the selected
   * label, or the first option's field when no label matches or the matched
   * field is empty.
   */
  function SortField(options: seq<SortOption>, selected: string): (r: string)
    requires |options| > 0
    ensures (forall i | 0 <= i < |options| :: options[i].text != selected) ==> r == options[0].field
    ensures r == options[0].field || exists i | 0 <= i < |options| :: options[i] == SortOption(selected, r)
  {
    match FirstMatch(options, selected)
    case Some(field) => if field != "" then field else options[0].field
    case None => options[0].field
  }

  /** The order keyword: DESC exactly for the descending choice, ASC for anything else. */
  function OrderKeyword(order: string): (r: string)
    ensures r == "DESC" <==> order == Descending
    ensures r == "ASC" <==> order != Descending
  {
    if order == Descending then "DESC" else "ASC"
  }

  /** The statement run for a report: the base query with the sort appended. */
  function ReportQuery(baseQuery: string, options: seq<SortOption>, selected: string, order: string): (r: string)
    requires |options| > 0
    ensures StartsWith(r, baseQuery + " ORDER BY " + SortField(options, selected) + " ")
    ensures EndsWith(r, " " + OrderKeyword(order))
    ensures |r| == |baseQuery| + 11 + |SortField(options, selected)| + |OrderKeyword(order)|
  {
    var r := baseQuery + " ORDER BY " + SortField(options, selected) + " " + OrderKeyword(order);
    assert r[..|r| - |OrderKeyword(order)| - 1] == baseQuery + " ORDER BY " + SortField(options, selected);
    r
  }

  /** With distinct labels and non-empty fields, choosing an option's label sorts by that option's field. */
  lemma {:induction false} LabelSelectsItsField(options: seq<SortOption>, k: nat)
    requires k < |options|
    requires forall i, j | 0 <= i < j < |options| :: options[i].text != options[j].text
    requires forall i | 0 <= i < |options| :: options[i].field != ""
    ensures SortField(options, options[k].text) == options[k].field
  {
    var m := FirstMatch(options, options[k].text);
    var i :| 0 <= i < |options| && options[i] == SortOption(options[k].text, m.value) &&
             forall j | 0 <= j < i :: options[j].text != options[k].text;
    assert i == k;
  }

  /** In every report, each listed sort choice sorts by its own column. */
  lemma ReportChoiceSortsByItsField(kind: ReportKind, k: nat)
    requires k < |SortOptions(kind)|
    ensures SortField(SortOptions(kind), SortOptions(kind)[k].text) == SortOptions(kind)[k].field
  {
    LabelSelectsItsField(SortOptions(kind), k);
  }

  /** Run with the preselected choices, a report is sorted by its first option, descending. */
  lemma DefaultReportOrder(kind: ReportKind, baseQuery: string)
    ensures var options := SortOptions(kind);
            ReportQuery(baseQuery, options, options[0].text, Descending) ==
              baseQuery + " ORDER BY " + options[0].field + " DESC"
  {
    ReportChoiceSortsByItsField(kind, 0);
  }
}
