/**
 * The `SELECT` statement that `load_table_data` builds for the current table
 * from the ordered filter map `current_filter` and the sort state: one
 * parameterised condition per non-empty filter value, joined with AND, and an
 * optional ORDER BY clause.
 */
module FilterQuery {
  import opened Wrappers
  import opened Strings

  /** One item of the ordered filter map: column name and the raw string typed for it. */
  datatype FilterEntry = FilterEntry(column: string, value: string)

  /** `sort_column` (None while unset) and `sort_reverse`. */
  datatype SortState = SortState(column: Option<string>, reverse: bool)

  /** A query parameter as handed to the database driver. */
  datatype Param = PBool(b: bool) | PInt(n: int) | PText(s: string)

  /** `col = %s` or `col::text ILIKE %s`. */
  datatype Operator = Equals | TextLike

  datatype Condition = Condition(column: string, op: Operator, param: Param)

  /** Query text with `%s` placeholders, and the parameters in placeholder order. */
  datatype TableQuery = TableQuery(text: string, params: seq<Param>)

  const GenderTokens: seq<string> := ["M", "F"]
  const MedalTokens: seq<string> := ["Gold", "Silver", "Bronze"]

  /** A column named like a key: ending in `_id` or starting with `id_`. */
  predicate IsIdColumn(column: string) {
    EndsWith(column, "_id") || StartsWith(column, "id_")
  }

  /** The kennel's key columns are key-named; its plain columns are not. */
  lemma KennelKeyColumns()
    ensures forall c | c in ["id_breed", "id_mother", "id_father", "id_dog", "id_illness", "id_exhibition"] :: IsIdColumn(c)
    ensures !IsIdColumn("owner") && !IsIdColumn("gender") && !IsIdColumn("medal") && !IsIdColumn("id")
  {
    assert "owner"[..3] == "own" && "owner"[2..] == "ner";
    assert "gender"[..3] == "gen" && "gender"[3..] == "der";
    assert "medal"[..3] == "med" && "medal"[2..] == "dal";
  }

  /** The pattern of a substring match: the value between two `%` wildcards. */
  function Pattern(value: string): string {
    "%" + value + "%"
  }

  function ConditionText(c: Condition): string {
    match c.op
    case Equals => c.column + " = %s"
    case TextLike => c.column + "::text ILIKE %s"
  }

  /**
   * The condition for one non-empty filter value. The operator is chosen by a
   * priority chain: a TRUE/FALSE token in any letter case, then a key-named
   * column (integer equality, or a substring match when the value is not an
   * integer), then an exact gender or medal token, then a substring match.
   */
  function FilterCondition(e: FilterEntry): (r: Condition)
    ensures r.column == e.column
    ensures r.param.PBool? <==> IsBoolToken(e.value)
    ensures r.param.PBool? ==> r.op == Equals && (r.param.b <==> Upper(e.value) == "TRUE")
    ensures r.param.PInt? <==> !IsBoolToken(e.value) && IsIdColumn(e.column) && ParseInt(e.value).Some?
    ensures r.param.PInt? ==> r.op == Equals && ParseInt(e.value) == Some(r.param.n)
    ensures r.op == TextLike <==>
              && !IsBoolToken(e.value)
              && (if IsIdColumn(e.column) then ParseInt(e.value).None?
                  else e.value !in GenderTokens + MedalTokens)
    ensures r.op == TextLike ==> r.param == PText(Pattern(e.value))
    ensures r.op == Equals && r.param.PText? ==>
              r.param.s == e.value && e.value in GenderTokens + MedalTokens && !IsIdColumn(e.column)
  {
    var column, value := e.column, e.value;
    if IsBoolToken(value) then Condition(column, Equals, PBool(Upper(value) == "TRUE"))
    else if IsIdColumn(column) then
      match ParseInt(value)
      case Some(n) => Condition(column, Equals, PInt(n))
      case None => Condition(column, TextLike, PText(Pattern(value)))
    else if value in GenderTokens || value in MedalTokens then Condition(column, Equals, PText(value))
    else Condition(column, TextLike, PText(Pattern(value)))
  }

  /** The conditions of a filter map, item by item in map order; empty values add none. */
  function FilterConditions(f: seq<FilterEntry>): (r: seq<Condition>)
    ensures |r| <= |f|
  {
    if f == [] then []
    else (if f[0].value != "" then [FilterCondition(f[0])] else []) + FilterConditions(f[1..])
  }

  /** The items of a filter map whose value is non-empty, in map order. */
  function NonEmptyEntries(f: seq<FilterEntry>): (r: seq<FilterEntry>)
    ensures |r| <= |f|
    ensures forall k | 0 <= k < |r| :: r[k].value != "" && r[k] in f
  {
    if f == [] then []
    else (if f[0].value != "" then [f[0]] else []) + NonEmptyEntries(f[1..])
  }

  function ConditionTexts(cs: seq<Condition>): (r: seq<string>)
    ensures |r| == |cs|
  {
    seq(|cs|, i requires 0 <= i < |cs| => ConditionText(cs[i]))
  }

  /** One parameter per condition, in condition order. */
  function Params(cs: seq<Condition>): (r: seq<Param>)
    ensures |r| == |cs|
    ensures forall i | 0 <= i < |cs| :: r[i] == cs[i].param
  {
    seq(|cs|, i requires 0 <= i < |cs| => cs[i].param)
  }

  /** The `WHERE ...` part of the statement: present only when there is a condition. */
  function WherePart(f: seq<FilterEntry>): seq<string> {
    var conds := FilterConditions(f);
    if conds == [] then [] else ["WHERE " + Join(" AND ", ConditionTexts(conds))]
  }

  /** The `ORDER BY ...` part of the statement: present only while a sort column is set. */
  function OrderPart(s: SortState): seq<string> {
    if s.column.Some? && s.column.value != "" then
      ["ORDER BY " + s.column.value + " " + (if s.reverse then "DESC" else "ASC")]
    else []
  }

  /** The statement `load_table_data` builds, as the space-joined list of its parts. */
  function TableQueryFor(table: string, f: seq<FilterEntry>, s: SortState): (r: TableQuery)
    ensures StartsWith(r.text, "SELECT * FROM " + table)
    ensures |r.params| == |NonEmptyEntries(f)|
  {
    var head := "SELECT * FROM " + table;
    JoinOptionalParts(head, WherePart(f), OrderPart(s));
    ConditionsFollowNonEmptyEntries(f);
    TableQuery(Join(" ", [head] + WherePart(f) + OrderPart(s)), Params(FilterConditions(f)))
  }

  /** The WHERE clause as it appears in the text, with its leading space. */
  function WhereClause(f: seq<FilterEntry>): (r: string)
    ensures r == "" <==> forall i | 0 <= i < |f| :: f[i].value == ""
    ensures r != "" ==> r == " WHERE " + Join(" AND ", ConditionTexts(FilterConditions(f)))
  {
    NoConditionsIffAllEmpty(f);
    var conds := FilterConditions(f);
    if conds == [] then "" else " WHERE " + Join(" AND ", ConditionTexts(conds))
  }

  /** The ORDER BY clause as it appears in the text, with its leading space. */
  function OrderClause(s: SortState): (r: string)
    ensures r != "" <==> s.column.Some? && s.column.value != ""
    ensures r != "" ==> StartsWith(r, " ORDER BY " + s.column.value + " ")
    ensures r != "" ==> (EndsWith(r, " DESC") <==> s.reverse) && (EndsWith(r, " ASC") <==> !s.reverse)
  {
    var o := OrderPart(s);
    if o == [] then ""
    else
      var r := " " + o[0];
      assert r == " ORDER BY " + s.column.value + " " + (if s.reverse then "DESC" else "ASC");
      assert r[|r| - 4] == if s.reverse then 'D' else ' ';
      r
  }

  /** The conditions of a concatenation are the concatenated conditions: map order is kept. */
  lemma {:induction false} FilterConditionsAppend(a: seq<FilterEntry>, b: seq<FilterEntry>)
    ensures FilterConditions(a + b) == FilterConditions(a) + FilterConditions(b)
  {
    if a != [] {
      assert (a + b)[0] == a[0];
      assert (a + b)[1..] == a[1..] + b;
      FilterConditionsAppend(a[1..], b);
    } else {
      assert a + b == b;
    }
  }

  /**
   * Exactly one condition per non-empty value, in map order: the i-th condition
   * is the condition of the i-th item whose value is non-empty.
   */
  lemma {:induction false} ConditionsFollowNonEmptyEntries(f: seq<FilterEntry>)
    ensures |FilterConditions(f)| == |NonEmptyEntries(f)|
    ensures forall k | 0 <= k < |FilterConditions(f)| ::
              FilterConditions(f)[k] == FilterCondition(NonEmptyEntries(f)[k])
  {
    if f != [] {
      ConditionsFollowNonEmptyEntries(f[1..]);
    }
  }

  /** Every column appears at most once: the filter map is a dictionary. */
  predicate DistinctColumns(f: seq<FilterEntry>) {
    forall i, j | 0 <= i < j < |f| :: f[i].column != f[j].column
  }

  /** Keeping the non-empty items of a concatenation keeps them part by part. */
  lemma {:induction false} NonEmptyEntriesAppend(a: seq<FilterEntry>, b: seq<FilterEntry>)
    ensures NonEmptyEntries(a + b) == NonEmptyEntries(a) + NonEmptyEntries(b)
  {
    if a != [] {
      assert (a + b)[0] == a[0];
      assert (a + b)[1..] == a[1..] + b;
      NonEmptyEntriesAppend(a[1..], b);
    } else {
      assert a + b == b;
    }
  }

  /** Dropping the empty values keeps a dictionary a dictionary. */
  lemma {:induction false} NonEmptyEntriesDistinct(f: seq<FilterEntry>)
    requires DistinctColumns(f)
    ensures DistinctColumns(NonEmptyEntries(f))
  {
    if f != [] {
      var rest := NonEmptyEntries(f[1..]);
      assert DistinctColumns(f[1..]) by {
        forall i, j | 0 <= i < j < |f[1..]| ensures f[1..][i].column != f[1..][j].column {
          assert f[1..][i] == f[i + 1] && f[1..][j] == f[j + 1];
        }
      }
      NonEmptyEntriesDistinct(f[1..]);
      forall k | 0 <= k < |rest| ensures rest[k].column != f[0].column {
        var m :| 0 <= m < |f[1..]| && f[1..][m] == rest[k];
        assert f[m + 1] == rest[k];
      }
    }
  }

  /** A map whose values are all non-empty keeps every item. */
  lemma {:induction false} NonEmptyEntriesIdentity(f: seq<FilterEntry>)
    requires forall i | 0 <= i < |f| :: f[i].value != ""
    ensures NonEmptyEntries(f) == f
  {
    if f != [] {
      assert forall i | 0 <= i < |f[1..]| :: f[1..][i] == f[i + 1];
      NonEmptyEntriesIdentity(f[1..]);
    }
  }

  /** A filter map has no condition exactly when every value in it is empty. */
  lemma {:induction false} NoConditionsIffAllEmpty(f: seq<FilterEntry>)
    ensures FilterConditions(f) == [] <==> forall i | 0 <= i < |f| :: f[i].value == ""
  {
    if f != [] {
      NoConditionsIffAllEmpty(f[1..]);
      assert forall i | 1 <= i < |f| :: f[i] == f[1..][i - 1];
    }
  }

  /**
   * The statement text is `SELECT * FROM <table>`, then the WHERE clause, then
   * the ORDER BY clause, with one parameter per condition (see WhereClause and
   * OrderClause for when each clause is present).
   */
  lemma SelectShape(table: string, f: seq<FilterEntry>, s: SortState)
    ensures TableQueryFor(table, f, s).text == "SELECT * FROM " + table + WhereClause(f) + OrderClause(s)
    ensures TableQueryFor(table, f, s).params == Params(FilterConditions(f))
  {
    var w := WherePart(f);
    JoinOptionalParts("SELECT * FROM " + table, w, OrderPart(s));
    if w != [] {
      var j := Join(" AND ", ConditionTexts(FilterConditions(f)));
      assert " " + w[0] == " WHERE " + j;
    }
  }

  /** Joining a head with at most one middle and at most one tail part. */
  lemma JoinOptionalParts(head: string, w: seq<string>, o: seq<string>)
    requires |w| <= 1 && |o| <= 1
    ensures Join(" ", [head] + w + o) ==
              head + (if w == [] then "" else " " + w[0]) + (if o == [] then "" else " " + o[0])
  {
    JoinOptionalPart([head], w);
    JoinOptionalPart([head] + w, o);
  }

  /** Joining at most one more part with a space: a single space precedes it. */
  lemma JoinOptionalPart(parts: seq<string>, extra: seq<string>)
    requires |parts| > 0 && |extra| <= 1
    ensures Join(" ", parts + extra) == Join(" ", parts) + (if extra == [] then "" else " " + extra[0])
  {
    if extra == [] {
      assert parts + extra == parts;
    } else {
      assert extra == [extra[0]];
      JoinSnoc(" ", parts, extra[0]);
    }
  }

  /**
   * The condition text and parameter for one non-empty filter value, chosen by
   * the branches of the filter loop in `load_table_data`.
   */
  method ConditionFor(column: string, value: string) returns (text: string, param: Param)
    ensures var c := FilterCondition(FilterEntry(column, value)); text == ConditionText(c) && param == c.param
  {
    if IsBoolToken(value) {
      text, param := column + " = %s", PBool(Upper(value) == "TRUE");
    } else if IsIdColumn(column) {
      var n := ParseInt(value);
      if n.Some? {
        text, param := column + " = %s", PInt(n.value);
      } else {
        text, param := column + "::text ILIKE %s", PText("%" + value + "%");
      }
    } else if value in GenderTokens {
      text, param := column + " = %s", PText(value);
    } else if value in MedalTokens {
      text, param := column + " = %s", PText(value);
    } else {
      text, param := column + "::text ILIKE %s", PText("%" + value + "%");
    }
  }

  /** The conditions of one more item: those so far, then that item's condition if its value is non-empty. */
  lemma FilterConditionsStep(f: seq<FilterEntry>, i: nat)
    requires i < |f|
    ensures FilterConditions(f[..i + 1]) ==
              FilterConditions(f[..i]) + (if f[i].value != "" then [FilterCondition(f[i])] else [])
  {
    assert f[..i + 1] == f[..i] + [f[i]];
    FilterConditionsAppend(f[..i], [f[i]]);
  }

  /** Texts and parameters of one more condition. */
  lemma TextsAndParamsSnoc(cs: seq<Condition>, c: Condition)
    ensures ConditionTexts(cs + [c]) == ConditionTexts(cs) + [ConditionText(c)]
    ensures Params(cs + [c]) == Params(cs) + [c.param]
  {
    assert forall i | 0 <= i < |cs| :: (cs + [c])[i] == cs[i];
  }

  /**
   * The filter loop of `load_table_data`: a condition text and a parameter for
   * every non-empty value, in map order.
   */
  method CollectConditions(filter: seq<FilterEntry>) returns (conditions: seq<string>, params: seq<Param>)
    ensures conditions == ConditionTexts(FilterConditions(filter))
    ensures params == Params(FilterConditions(filter))
  {
    conditions, params := [], [];
    var i := 0;
    while i < |filter|
      invariant 0 <= i <= |filter|
      invariant conditions == ConditionTexts(FilterConditions(filter[..i]))
      invariant params == Params(FilterConditions(filter[..i]))
    {
      FilterConditionsStep(filter, i);
      if filter[i].value != "" {
        var text, param := ConditionFor(filter[i].column, filter[i].value);
        assert FilterEntry(filter[i].column, filter[i].value) == filter[i];
        TextsAndParamsSnoc(FilterConditions(filter[..i]), FilterCondition(filter[i]));
        conditions := conditions + [text];
        params := params + [param];
      }
      i := i + 1;
    }
    assert filter[..i] == filter;
  }

  /**
   * The statement `load_table_data` builds: the filter loop, then the WHERE
   * and ORDER BY parts, joined with spaces.
   */
  method BuildSelect(table: string, filter: seq<FilterEntry>, sort: SortState) returns (q: TableQuery)
    ensures q == TableQueryFor(table, filter, sort)
  {
    var queryParts := ["SELECT * FROM " + table];
    var queryParams: seq<Param> := [];
    if filter != [] {
      var conditions;
      conditions, queryParams := CollectConditions(filter);
      if conditions != [] {
        queryParts := queryParts + ["WHERE " + Join(" AND ", conditions)];
      }
    }
    assert queryParts == ["SELECT * FROM " + table] + WherePart(filter);
    assert queryParams == Params(FilterConditions(filter));
    if sort.column.Some? && sort.column.value != "" {
      var order := if sort.reverse then "DESC" else "ASC";
      queryParts := queryParts + ["ORDER BY " + sort.column.value + " " + order];
    }
    assert queryParts == ["SELECT * FROM " + table] + WherePart(filter) + OrderPart(sort);
    q := TableQuery(Join(" ", queryParts), queryParams);
  }

  /** An integer written in decimal on a key-named column filters by integer equality. */
  lemma IdColumnIntegerFilter(column: string, n: int)
    requires IsIdColumn(column) && WithinDigitLimit(n)
    ensures FilterCondition(FilterEntry(column, IntToString(n))) == Condition(column, Equals, PInt(n))
  {
    var v := IntToString(n);
    ParseIntRoundTrip(n);
    assert Upper(v)[0] == v[0];
    assert !IsBoolToken(v) by {
      assert Upper(v)[0] != 'T' && Upper(v)[0] != 'F';
    }
  }

  /** A number longer than `int()` converts falls back to a substring match on a key-named column. */
  lemma OverlongNumberFilteredAsText(column: string, digits: string)
    requires IsIdColumn(column) && |digits| > MaxIntDigits
    requires forall i | 0 <= i < |digits| :: IsDigit(digits[i])
    ensures FilterCondition(FilterEntry(column, digits)) == Condition(column, TextLike, PText(Pattern(digits)))
  {
    TooManyDigitsRejected(digits);
    assert Upper(digits)[0] == digits[0];
    assert !IsBoolToken(digits) by {
      assert Upper(digits)[0] != 'T' && Upper(digits)[0] != 'F';
    }
  }

  /** A TRUE/FALSE token wins over every other rule, key-named columns included. */
  lemma BoolTokenWins(column: string, value: string)
    requires IsBoolToken(value)
    ensures FilterCondition(FilterEntry(column, value)) == Condition(column, Equals, PBool(Upper(value) == "TRUE"))
  {
  }
}
