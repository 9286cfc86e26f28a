/** The SQL query builder: whatever the order of the calls, every placeholder meets its own value. */
module QueryBuilders {

  datatype Value = Text(text: string) | Number(number: int)

  /** A query text with its placeholders replaced by values. */
  datatype Token = Char(c: char) | Bound(value: Value)

  datatype Call =
    | AndCondition(condition: string, values: seq<Value>)
    | OrCondition(condition: string, values: seq<Value>)
    | GroupBy(fields: string)
    | Sorting(field: string, order: string, prefix: string)
    | Pagination(page: int, pageLimit: int)

  datatype Query = Query(
    baseQuery: string, whereClause: string, whereParams: seq<Value>, sortClause: string, groupByClause: string,
    paginationClause: string, paginationParams: seq<Value>, forUpdateSkipLocked: bool)

  // ---------- what the calls do ----------

  const LIMIT_OFFSET := "LIMIT ? OFFSET ?"

  predicate Effective(c: Call) {
    c.Pagination? && c.page > 0 && c.pageLimit > 0
  }

  function PageParams(c: Call): seq<Value>
    requires Effective(c)
  {
    [Number(c.pageLimit), Number((c.page - 1) * c.pageLimit)]
  }

  /** The text a condition adds to the WHERE clause. */
  function ConditionText(c: Call): string {
    match c
    case AndCondition(condition, _) => " AND " + condition
    case OrCondition(condition, _) => " OR " + condition
    case _ => ""
  }

  function ConditionValues(c: Call): seq<Value> {
    match c
    case AndCondition(_, values) => values
    case OrCondition(_, values) => values
    case _ => []
  }

  function After(q: Query, c: Call): Query {
    match c
    case AndCondition(_, _) => q.(whereClause := q.whereClause + ConditionText(c),
                                  whereParams := q.whereParams + c.values)
    case OrCondition(_, _) => q.(whereClause := q.whereClause + ConditionText(c),
                                 whereParams := q.whereParams + c.values)
    case GroupBy(fields) => q.(groupByClause := "GROUP BY " + fields)
    case Sorting(field, order, prefix) =>
      if field != "" then q.(sortClause := "ORDER BY " + prefix + "." + field + " " + order) else q
    case Pagination(_, _) =>
      if Effective(c) then q.(paginationClause := LIMIT_OFFSET,
                              paginationParams := q.paginationParams + PageParams(c)) else q
  }

  function AfterAll(baseQuery: string, calls: seq<Call>): Query {
    if calls == [] then Query(baseQuery, "", [], "", "", "", [], false)
    else After(AfterAll(baseQuery, calls[..|calls| - 1]), calls[|calls| - 1])
  }

  function Spaced(clause: string): string {
    if clause != "" then " " + clause else ""
  }

  /** The clauses in SQL order, whatever the order of the calls. */
  function TextOf(q: Query): string {
    Sorted(q) + Spaced(q.paginationClause) + (if q.forUpdateSkipLocked then " FOR UPDATE SKIP LOCKED" else "")
  }

  function Filtered(q: Query): string {
    q.baseQuery + if q.whereClause != "" then " WHERE 1=1" + q.whereClause else ""
  }

  function Grouped(q: Query): string {
    Filtered(q) + Spaced(q.groupByClause)
  }

  function Sorted(q: Query): string {
    Grouped(q) + Spaced(q.sortClause)
  }

  function ParamsOf(q: Query): seq<Value> {
    (if q.whereClause != "" then q.whereParams else []) + (if q.paginationClause != "" then q.paginationParams else [])
  }

  class QueryBuilder {
    var baseQuery: string
    var whereClause: string
    var whereParams: seq<Value>
    var sortClause: string
    var groupByClause: string
    var paginationClause: string
    var paginationParams: seq<Value>
    var forUpdateSkipLocked: bool

    constructor (query: string)
      ensures Contents() == AfterAll(query, [])
    {
      baseQuery, whereClause, whereParams, sortClause, groupByClause := query, "", [], "", "";
      paginationClause, paginationParams, forUpdateSkipLocked := "", [], false;
    }

    function Contents(): Query
      reads this
    {
      Query(baseQuery, whereClause, whereParams, sortClause, groupByClause, paginationClause, paginationParams,
            forUpdateSkipLocked)
    }

    method AddCondition(condition: string, values: seq<Value>)
      modifies this`whereClause, this`whereParams
      ensures Contents() == After(old(Contents()), AndCondition(condition, values))
    {
      whereClause := whereClause + (" AND " + condition);
      if |values| > 0 {
        whereParams := whereParams + values;
      }
    }

    method AddOrCondition(condition: string, values: seq<Value>)
      modifies this`whereClause, this`whereParams
      ensures Contents() == After(old(Contents()), OrCondition(condition, values))
    {
      whereClause := whereClause + (" OR " + condition);
      if |values| > 0 {
        whereParams := whereParams + values;
      }
    }

    method AddGroupBy(fields: string)
      modifies this`groupByClause
      ensures Contents() == After(old(Contents()), GroupBy(fields))
    {
      groupByClause := "GROUP BY " + fields;
    }

    method AddSorting(field: string, order: string, prefix: string)
      modifies this`sortClause
      ensures Contents() == After(old(Contents()), Sorting(field, order, prefix))
    {
      if field != "" {
        sortClause := "ORDER BY " + prefix + "." + field + " " + order;
      }
    }

    method AddPagination(page: int, pageLimit: int)
      modifies this`paginationClause, this`paginationParams
      ensures Contents() == After(old(Contents()), Pagination(page, pageLimit))
    {
      if page > 0 && pageLimit > 0 {
        var offset := (page - 1) * pageLimit;
        paginationClause := "LIMIT ? OFFSET ?";
        paginationParams := paginationParams + [Number(pageLimit), Number(offset)];
      }
    }

    /** Assembles the clauses in SQL order, and the parameters along with them. */
    method Build() returns (query: string, params: seq<Value>)
      ensures query == TextOf(Contents()) && params == ParamsOf(Contents())
    {
      ghost var q := Contents();
      query, params := baseQuery, [];
      if whereClause != "" {
        query := query + (" WHERE 1=1" + whereClause);
        params := params + whereParams;
      }
      assert query == Filtered(q);
      if groupByClause != "" {
        query := query + (" " + groupByClause);
      }
      assert query == Grouped(q);
      if sortClause != "" {
        query := query + (" " + sortClause);
      }
      assert query == Sorted(q);
      if paginationClause != "" {
        query := query + (" " + paginationClause);
        params := params + paginationParams;
      }
      assert query == Sorted(q) + Spaced(paginationClause);
      if forUpdateSkipLocked {
        query := query + " FOR UPDATE SKIP LOCKED";
      }
    }
  }

  // ---------- the text, spelled out ----------

  /** Each call writes its own clause and no other, whatever came before it. */
  lemma OneMoreCall(baseQuery: string, calls: seq<Call>, c: Call)
    ensures var q, q' := AfterAll(baseQuery, calls), AfterAll(baseQuery, calls + [c]);
      match c
      case AndCondition(condition, values) =>
        q' == q.(whereClause := (q.whereClause + " AND ") + condition, whereParams := q.whereParams + values)
      case OrCondition(condition, values) =>
        q' == q.(whereClause := (q.whereClause + " OR ") + condition, whereParams := q.whereParams + values)
      case GroupBy(fields) => q' == q.(groupByClause := "GROUP BY " + fields)
      case Sorting(field, order, prefix) =>
        (field == "" ==> q' == q)
        && (field != "" ==> q' == q.(sortClause := "ORDER BY " + prefix + "." + field + " " + order))
      case Pagination(page, limit) =>
        (page <= 0 || limit <= 0 ==> q' == q)
        && (page > 0 && limit > 0 ==>
              q' == q.(paginationClause := "LIMIT ? OFFSET ?",
                       paginationParams := q.paginationParams + [Number(limit), Number((page - 1) * limit)]))
  {
    var q := AfterAll(baseQuery, calls);
    assert (calls + [c])[..|calls|] == calls;
    if c.AndCondition? { assert q.whereClause + (" AND " + c.condition) == (q.whereClause + " AND ") + c.condition; }
    if c.OrCondition? { assert q.whereClause + (" OR " + c.condition) == (q.whereClause + " OR ") + c.condition; }
  }

  /**
   The clauses that are there follow the base query in the order of SQL, each after a space, and so do their values.
   */
  lemma TextInOrder(q: Query)
    ensures TextOf(q) ==
            ((((q.baseQuery + (if q.whereClause != "" then " WHERE 1=1" + q.whereClause else ""))
               + (if q.groupByClause != "" then " " + q.groupByClause else ""))
              + (if q.sortClause != "" then " " + q.sortClause else ""))
             + (if q.paginationClause != "" then " " + q.paginationClause else ""))
            + (if q.forUpdateSkipLocked then " FOR UPDATE SKIP LOCKED" else "")
    ensures q.whereClause != "" && q.paginationClause != "" ==> ParamsOf(q) == q.whereParams + q.paginationParams
    ensures q.whereClause != "" && q.paginationClause == "" ==> ParamsOf(q) == q.whereParams
    ensures q.whereClause == "" && q.paginationClause != "" ==> ParamsOf(q) == q.paginationParams
    ensures q.whereClause == "" && q.paginationClause == "" ==> ParamsOf(q) == []
  {
  }

  // ---------- binding ----------

  function Placeholders(text: string): nat {
    if text == "" then 0 else (if text[0] == '?' then 1 else 0) + Placeholders(text[1..])
  }

  /** Replaces the i-th placeholder by the i-th value. */
  function Bind(text: string, values: seq<Value>): seq<Token>
    requires Placeholders(text) <= |values|
  {
    if text == "" then []
    else if text[0] == '?' then [Bound(values[0])] + Bind(text[1..], values[1..])
    else [Char(text[0])] + Bind(text[1..], values)
  }

  lemma {:induction false} PlaceholdersConcat(a: string, b: string)
    ensures Placeholders(a + b) == Placeholders(a) + Placeholders(b)
  {
    if a == "" {
      assert a + b == b;
    } else {
      assert (a + b)[1..] == a[1..] + b;
      PlaceholdersConcat(a[1..], b);
    }
  }

  /** When the first text uses up its values, the second one starts with its own. */
  lemma {:induction false} BindConcat(a: string, b: string, v: seq<Value>, w: seq<Value>)
    requires Placeholders(a) == |v| && Placeholders(b) <= |w|
    ensures Placeholders(a + b) <= |v + w|
    ensures Bind(a + b, v + w) == Bind(a, v) + Bind(b, w)
  {
    PlaceholdersConcat(a, b);
    if a == "" {
      assert a + b == b && v + w == w;
    } else if a[0] == '?' {
      assert (a + b)[1..] == a[1..] + b && (v + w)[1..] == v[1..] + w;
      BindConcat(a[1..], b, v[1..], w);
    } else {
      assert (a + b)[1..] == a[1..] + b;
      BindConcat(a[1..], b, v, w);
    }
  }

  lemma {:induction false} NoPlaceholders(text: string)
    requires '?' !in text
    ensures Placeholders(text) == 0
  {
    if text != "" { NoPlaceholders(text[1..]); }
  }

  /** Conditions have one value per placeholder; other fragments have no placeholder. */
  predicate WellFormed(c: Call) {
    match c
    case AndCondition(condition, values) => Placeholders(condition) == |values|
    case OrCondition(condition, values) => Placeholders(condition) == |values|
    case GroupBy(fields) => '?' !in fields
    case Sorting(field, order, prefix) => '?' !in field && '?' !in order && '?' !in prefix
    case Pagination(_, _) => true
  }

  function EffectivePages(calls: seq<Call>): seq<Call> {
    if calls == [] then []
    else
      var before := EffectivePages(calls[..|calls| - 1]);
      if Effective(calls[|calls| - 1]) then before + [calls[|calls| - 1]] else before
  }

  /** Every condition bound to its own values, in the order of the calls. */
  function BoundConditions(calls: seq<Call>): seq<Token>
    requires forall i | 0 <= i < |calls| :: WellFormed(calls[i])
  {
    if calls == [] then []
    else
      var c := calls[|calls| - 1];
      ConditionPlaceholders(c);
      BoundConditions(calls[..|calls| - 1]) + Bind(ConditionText(c), ConditionValues(c))
  }

  lemma ConditionPlaceholders(c: Call)
    requires WellFormed(c)
    ensures Placeholders(ConditionText(c)) == |ConditionValues(c)|
  {
    match c
    case AndCondition(condition, _) => NoPlaceholders(" AND "); PlaceholdersConcat(" AND ", condition);
    case OrCondition(condition, _) => NoPlaceholders(" OR "); PlaceholdersConcat(" OR ", condition);
    case _ =>
  }

  lemma {:induction false} WhereBinds(baseQuery: string, calls: seq<Call>)
    requires forall i | 0 <= i < |calls| :: WellFormed(calls[i])
    ensures var q := AfterAll(baseQuery, calls);
            && Placeholders(q.whereClause) == |q.whereParams|
            && Bind(q.whereClause, q.whereParams) == BoundConditions(calls)
            && q.baseQuery == baseQuery && !q.forUpdateSkipLocked
            && (q.whereClause == "" ==> q.whereParams == [])
  {
    if calls != [] {
      var front, c := calls[..|calls| - 1], calls[|calls| - 1];
      WhereBinds(baseQuery, front);
      var q := AfterAll(baseQuery, front);
      ConditionPlaceholders(c);
      PlaceholdersConcat(q.whereClause, ConditionText(c));
      BindConcat(q.whereClause, ConditionText(c), q.whereParams, ConditionValues(c));
      assert After(q, c).whereClause == q.whereClause + ConditionText(c);
      assert After(q, c).whereParams == q.whereParams + ConditionValues(c);
    }
  }

  lemma {:induction false} ClausesAreText(baseQuery: string, calls: seq<Call>)
    requires forall i | 0 <= i < |calls| :: WellFormed(calls[i])
    ensures '?' !in AfterAll(baseQuery, calls).groupByClause && '?' !in AfterAll(baseQuery, calls).sortClause
  {
    if calls != [] { ClausesAreText(baseQuery, calls[..|calls| - 1]); }
  }

  /** Each call that sets a page adds two parameters, but the clause keeps its two placeholders. */
  lemma {:induction false} PagesAccumulate(baseQuery: string, calls: seq<Call>)
    ensures var q := AfterAll(baseQuery, calls);
            && |q.paginationParams| == 2 * |EffectivePages(calls)|
            && q.paginationClause == (if EffectivePages(calls) == [] then "" else LIMIT_OFFSET)
            && (EffectivePages(calls) != [] ==>
                  Effective(EffectivePages(calls)[0]) && q.paginationParams[..2]
                    == PageParams(EffectivePages(calls)[0]))
  {
    if calls != [] {
      PagesAccumulate(baseQuery, calls[..|calls| - 1]);
    }
  }

  function Chars(text: string): seq<Token> {
    seq(|text|, i requires 0 <= i < |text| => Char(text[i]))
  }

  lemma {:induction false} BindText(text: string)
    requires '?' !in text
    ensures Placeholders(text) == 0 && Bind(text, []) == Chars(text)
  {
    if text != "" {
      BindText(text[1..]);
      assert Chars(text) == [Char(text[0])] + Chars(text[1..]);
    }
  }

  lemma BindMark(v: Value)
    ensures Placeholders("?") == 1 && Bind("?", [v]) == [Bound(v)]
  {
  }

  /** LIMIT gets the page size and OFFSET the rows before the page. */
  function BoundPage(limit: Value, offset: Value): seq<Token> {
    Chars(" LIMIT ") + [Bound(limit)] + Chars(" OFFSET ") + [Bound(offset)]
  }

  lemma TwoMarks(x: string, y: string, v: Value, w: Value)
    requires '?' !in x && '?' !in y
    ensures Placeholders(((x + "?") + y) + "?") == 2
    ensures Bind(((x + "?") + y) + "?", [v, w]) == Chars(x) + [Bound(v)] + Chars(y) + [Bound(w)]
  {
    BindText(x);
    BindMark(v);
    BindMark(w);
    BindConcat(x, "?", [], [v]);
    PlaceholdersConcat(x, "?");
    assert [] + [v] == [v];
    AppendText(x + "?", [v], y);
    BindConcat((x + "?") + y, "?", [v], [w]);
    PlaceholdersConcat((x + "?") + y, "?");
    assert [v] + [w] == [v, w];
  }

  lemma PageBinds(limit: Value, offset: Value)
    ensures Placeholders(" " + LIMIT_OFFSET) == 2
    ensures Bind(" " + LIMIT_OFFSET, [limit, offset]) == BoundPage(limit, offset)
  {
    assert ((" LIMIT " + "?") + " OFFSET ") + "?" == " " + LIMIT_OFFSET;
    TwoMarks(" LIMIT ", " OFFSET ", limit, offset);
  }

  function BoundPages(calls: seq<Call>): seq<Token>
    requires |EffectivePages(calls)| <= 1
  {
    if EffectivePages(calls) == [] then []
    else
      var c := EffectivePages(calls)[0];
      if Effective(c) then BoundPage(Number(c.pageLimit), Number((c.page - 1) * c.pageLimit)) else []
  }

  /** A clause counts and binds on its own: with a text that has no placeholder before it, it gets all the values. */
  lemma AppendText(a: string, v: seq<Value>, b: string)
    requires Placeholders(a) == |v| && '?' !in b
    ensures Placeholders(a + b) == |v| && Bind(a + b, v) == Bind(a, v) + Chars(b)
  {
    BindText(b);
    PlaceholdersConcat(a, b);
    BindConcat(a, b, v, []);
    assert v + [] == v;
  }

  lemma AppendMarked(a: string, v: seq<Value>, mark: string, b: string, w: seq<Value>)
    requires Placeholders(a) == |v| && '?' !in mark && Placeholders(b) == |w|
    ensures Placeholders(a + (mark + b)) == |v + w| && Bind(a + (mark + b), v + w)
            == Bind(a, v) + (Chars(mark) + Bind(b, w))
  {
    BindText(mark);
    PlaceholdersConcat(mark, b);
    BindConcat(mark, b, [], w);
    assert [] + w == w;
    PlaceholdersConcat(a, mark + b);
    BindConcat(a, mark + b, v, w);
  }

  function BoundWhere(calls: seq<Call>, whereClause: string): seq<Token>
    requires forall i | 0 <= i < |calls| :: WellFormed(calls[i])
  {
    if whereClause == "" then [] else Chars(" WHERE 1=1") + BoundConditions(calls)
  }

  lemma FilteredBinds(baseQuery: string, calls: seq<Call>)
    requires '?' !in baseQuery && forall i | 0 <= i < |calls| :: WellFormed(calls[i])
    ensures var q := AfterAll(baseQuery, calls);
            && Placeholders(Filtered(q)) == |q.whereParams|
            && Bind(Filtered(q), q.whereParams) == Chars(baseQuery) + BoundWhere(calls, q.whereClause)
  {
    var q := AfterAll(baseQuery, calls);
    WhereBinds(baseQuery, calls);
    BindText(baseQuery);
    if q.whereClause == "" {
      assert Filtered(q) == baseQuery;
    } else {
      AppendMarked(baseQuery, [], " WHERE 1=1", q.whereClause, q.whereParams);
      assert [] + q.whereParams == q.whereParams;
    }
  }

  lemma SortedBinds(baseQuery: string, calls: seq<Call>)
    requires '?' !in baseQuery && forall i | 0 <= i < |calls| :: WellFormed(calls[i])
    ensures var q := AfterAll(baseQuery, calls);
            && Placeholders(Sorted(q)) == |q.whereParams|
            && Bind(Sorted(q), q.whereParams)
               == Chars(baseQuery) + BoundWhere(calls, q.whereClause)
                  + Chars(Spaced(q.groupByClause)) + Chars(Spaced(q.sortClause))
  {
    var q := AfterAll(baseQuery, calls);
    FilteredBinds(baseQuery, calls);
    ClausesAreText(baseQuery, calls);
    AppendText(Filtered(q), q.whereParams, Spaced(q.groupByClause));
    AppendText(Grouped(q), q.whereParams, Spaced(q.sortClause));
  }

  lemma PlaceholderCount(baseQuery: string, calls: seq<Call>)
    requires '?' !in baseQuery && forall i | 0 <= i < |calls| :: WellFormed(calls[i])
    ensures var q := AfterAll(baseQuery, calls);
            Placeholders(TextOf(q)) == |q.whereParams| + if EffectivePages(calls) == [] then 0 else 2
  {
    var q := AfterAll(baseQuery, calls);
    assert TextOf(q) == Sorted(q) + Spaced(q.paginationClause) by { WhereBinds(baseQuery, calls); }
    SortedBinds(baseQuery, calls);
    PlaceholdersConcat(Sorted(q), Spaced(q.paginationClause));
    assert Placeholders(Spaced(q.paginationClause)) == if EffectivePages(calls) == [] then 0 else 2 by {
      PagesAccumulate(baseQuery, calls);
      PageBinds(Number(0), Number(0));
    }
  }

  lemma ParameterCount(baseQuery: string, calls: seq<Call>)
    requires forall i | 0 <= i < |calls| :: WellFormed(calls[i])
    ensures var q := AfterAll(baseQuery, calls);
            && ParamsOf(q) == q.whereParams + q.paginationParams
            && |q.paginationParams| == 2 * |EffectivePages(calls)|
  {
    WhereBinds(baseQuery, calls);
    PagesAccumulate(baseQuery, calls);
  }

  /** The number of placeholders is the number of parameters exactly when at most one call set a page. */
  lemma BalancedIff(baseQuery: string, calls: seq<Call>)
    requires '?' !in baseQuery && forall i | 0 <= i < |calls| :: WellFormed(calls[i])
    ensures var q := AfterAll(baseQuery, calls);
            Placeholders(TextOf(q)) == |ParamsOf(q)| <==> |EffectivePages(calls)| <= 1
  {
    PlaceholderCount(baseQuery, calls);
    ParameterCount(baseQuery, calls);
  }

  lemma OnePageParams(baseQuery: string, calls: seq<Call>)
    requires |EffectivePages(calls)| == 1
    ensures Effective(EffectivePages(calls)[0])
    ensures AfterAll(baseQuery, calls).paginationClause == LIMIT_OFFSET
    ensures AfterAll(baseQuery, calls).paginationParams == PageParams(EffectivePages(calls)[0])
  {
    PagesAccumulate(baseQuery, calls);
    var params := AfterAll(baseQuery, calls).paginationParams;
    assert params[..2] == params;
  }

  lemma OnePageBinds(baseQuery: string, calls: seq<Call>)
    requires |EffectivePages(calls)| <= 1
    ensures var q := AfterAll(baseQuery, calls);
            && Placeholders(Spaced(q.paginationClause)) == |q.paginationParams|
            && Bind(Spaced(q.paginationClause), q.paginationParams) == BoundPages(calls)
  {
    var q := AfterAll(baseQuery, calls);
    if EffectivePages(calls) == [] {
      PagesAccumulate(baseQuery, calls);
    } else {
      OnePageParams(baseQuery, calls);
      var c := EffectivePages(calls)[0];
      PageBinds(Number(c.pageLimit), Number((c.page - 1) * c.pageLimit));
    }
  }

  /**
   The built query binds every condition to its own values in the order of the conditions, and the page to its limit and
   offset, wherever the paging, sorting and grouping calls came between them.
   */
  lemma EveryPlaceholderItsValue(baseQuery: string, calls: seq<Call>)
    requires '?' !in baseQuery && (forall i | 0 <= i < |calls| :: WellFormed(calls[i])) && |EffectivePages(calls)| <= 1
    ensures var q := AfterAll(baseQuery, calls);
            && Placeholders(TextOf(q)) <= |ParamsOf(q)|
            && Bind(TextOf(q), ParamsOf(q))
               == Chars(baseQuery) + BoundWhere(calls, q.whereClause)
                  + Chars(Spaced(q.groupByClause)) + Chars(Spaced(q.sortClause))
                  + BoundPages(calls)
  {
    var q := AfterAll(baseQuery, calls);
    BalancedIff(baseQuery, calls);
    ParameterCount(baseQuery, calls);
    SortedBinds(baseQuery, calls);
    OnePageBinds(baseQuery, calls);
    assert TextOf(q) == Sorted(q) + Spaced(q.paginationClause) by { WhereBinds(baseQuery, calls); }
    BindConcat(Sorted(q), Spaced(q.paginationClause), q.whereParams, q.paginationParams);
  }

  // ---------- pages ----------

  function Least(a: nat, b: nat): nat { if a < b then a else b }

  /** The rows that LIMIT `limit` OFFSET (page - 1) * limit selects from an ordered result. */
  function Page<T>(rows: seq<T>, page: nat, limit: nat): seq<T>
    requires page > 0
  {
    var from := Least((page - 1) * limit, |rows|);
    rows[from..Least(from + limit, |rows|)]
  }

  function PagesUpTo<T>(rows: seq<T>, k: nat, limit: nat): seq<T> {
    if k == 0 then [] else PagesUpTo(rows, k - 1, limit) + Page(rows, k, limit)
  }

  /**
   Pages 1 to k hold the first k * limit rows, each once and in order: all of them when k * limit covers the result.
   */
  lemma {:induction false} PagesConcatenate<T>(rows: seq<T>, k: nat, limit: nat)
    ensures 0 <= k * limit
    ensures PagesUpTo(rows, k, limit) == rows[..Least(k * limit, |rows|)]
  {
    if k > 0 {
      PagesConcatenate(rows, k - 1, limit);
      assert k * limit == (k - 1) * limit + limit;
    }
  }
}
