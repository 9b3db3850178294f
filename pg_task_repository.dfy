/** The pure part of `PgTaskRepository`: the WHERE clause, its `$n`
    placeholders and parameter list, the LIMIT/OFFSET arguments, the
    mapping of result rows to tasks, and the result of `delete`. Running
    the SQL is not modelled: what the database answers is an input. */
module PgTasks {
  import opened Common
  import opened ValueObjects
  import opened TaskEntity
  import opened RepositoryContract

  /** A value passed to `pool.query` in the parameter array. */
  datatype SqlParam = Text(text: string) | Number(number: int)

  /** A row of the `tasks` table as the driver returns it. */
  datatype TaskRow = TaskRow(
    id: string,
    title: string,
    description: string,
    status: TaskStatus,
    priority: TaskPriority,
    assigneeId: Option<string>,
    dueDate: Option<nat>,
    tags: Option<seq<string>>,
    createdAt: nat,
    updatedAt: nat)

  predicate IsDigits(s: string) {
    forall k :: 0 <= k < |s| ==> '0' <= s[k] <= '9'
  }

  function DigitChar(d: nat): (c: char)
    requires d < 10
    ensures '0' <= c <= '9'
  {
    ('0' as int + d) as char
  }

  /** The decimal digits of `n`, as a template literal prints them. */
  function Decimal(n: nat): (r: string)
    ensures |r| >= 1 && IsDigits(r)
  {
    if n < 10 then [DigitChar(n)] else Decimal(n / 10) + [DigitChar(n % 10)]
  }

  /** `parseInt(s, 10)` on a string of digits: zero exactly when every
      digit is '0'. */
  function ParseDecimal(s: string): (r: nat)
    requires IsDigits(s)
    ensures r == 0 <==> forall k :: 0 <= k < |s| ==> s[k] == '0'
  {
    if s == [] then 0
    else ParseDecimal(s[..|s| - 1]) * 10 + (s[|s| - 1] as int - '0' as int)
  }

  /** Reading back the printed digits of a number gives the number. */
  lemma {:induction false} ParseDecimalOfDecimal(n: nat)
    ensures ParseDecimal(Decimal(n)) == n
  {
    var r := Decimal(n);
    if n < 10 {
      assert r[..|r| - 1] == [];
    } else {
      ParseDecimalOfDecimal(n / 10);
      assert r[..|r| - 1] == Decimal(n / 10);
    }
  }

  /** `$n`. */
  function Placeholder(n: nat): (r: string)
    ensures |r| >= 2 && r[0] == '$' && r[1..] == Decimal(n)
  {
    "$" + Decimal(n)
  }

  /** Different numbers give different placeholders. */
  lemma PlaceholdersDistinct(i: nat, j: nat)
    ensures Placeholder(i) == Placeholder(j) <==> i == j
  {
    if Placeholder(i) == Placeholder(j) {
      ParseDecimalOfDecimal(i);
      ParseDecimalOfDecimal(j);
    }
  }

  /** The SQL condition a criterion adds, bound to placeholder `$n`; the
      search uses its one placeholder twice. */
  function ConditionSql(c: Criterion, n: nat): string {
    match c
    case StatusIs(_) => "status = " + Placeholder(n)
    case PriorityIs(_) => "priority = " + Placeholder(n)
    case AssigneeIs(_) => "assignee_id = " + Placeholder(n)
    case SearchFor(_) => "(title ILIKE " + Placeholder(n) + " OR description ILIKE " + Placeholder(n) + ")"
  }

  /** The parameter a criterion pushes; the search text is wrapped in `%`
      with no escaping. */
  function ParamFor(c: Criterion): SqlParam {
    match c
    case StatusIs(s) => Text(StatusName(s))
    case PriorityIs(p) => Text(PriorityName(p))
    case AssigneeIs(a) => Text(a)
    case SearchFor(q) => Text("%" + q + "%")
  }

  /** The conditions for `cs`, numbered from `$start` on. */
  function ConditionsFrom(cs: seq<Criterion>, start: nat): (r: seq<string>)
    ensures |r| == |cs|
  {
    if cs == [] then [] else [ConditionSql(cs[0], start)] + ConditionsFrom(cs[1..], start + 1)
  }

  /** The parameters for `cs`, in order. */
  function ParamsOf(cs: seq<Criterion>): (r: seq<SqlParam>)
    ensures |r| == |cs|
  {
    if cs == [] then [] else [ParamFor(cs[0])] + ParamsOf(cs[1..])
  }

  /** The `i`-th condition tests the `i`-th criterion on placeholder
      `$(start + i)`, and the `i`-th parameter is that criterion's value. */
  lemma {:induction false} ConditionsAt(cs: seq<Criterion>, start: nat, i: nat)
    requires i < |cs|
    ensures ConditionsFrom(cs, start)[i] == ConditionSql(cs[i], start + i)
    ensures ParamsOf(cs)[i] == ParamFor(cs[i])
  {
    if i > 0 {
      ConditionsAt(cs[1..], start + 1, i - 1);
    }
  }

  lemma {:induction false} ConditionsSnoc(cs: seq<Criterion>, c: Criterion, start: nat)
    ensures ConditionsFrom(cs + [c], start) == ConditionsFrom(cs, start) + [ConditionSql(c, start + |cs|)]
    ensures ParamsOf(cs + [c]) == ParamsOf(cs) + [ParamFor(c)]
  {
    if cs != [] {
      assert (cs + [c])[0] == cs[0] && (cs + [c])[1..] == cs[1..] + [c];
      ConditionsSnoc(cs[1..], c, start + 1);
    } else {
      assert ConditionsFrom([c], start) == [ConditionSql(c, start)] + ConditionsFrom([], start + 1);
    }
  }

  /** The state of `BuildFilter` after the criteria `applied`: one
      condition and one parameter per criterion, the `k`-th condition on
      placeholder `$k`, and `paramIdx` the next placeholder. */
  ghost predicate Aligned(conditions: seq<string>, params: seq<SqlParam>, paramIdx: nat, applied: seq<Criterion>) {
    && conditions == ConditionsFrom(applied, 1)
    && params == ParamsOf(applied)
    && paramIdx == |applied| + 1
  }

  /** One push of a condition and its parameter keeps the alignment. */
  lemma AlignedStep(conditions: seq<string>, params: seq<SqlParam>, paramIdx: nat, applied: seq<Criterion>, c: Criterion)
    requires Aligned(conditions, params, paramIdx, applied)
    ensures Aligned(conditions + [ConditionSql(c, paramIdx)], params + [ParamFor(c)], paramIdx + 1, applied + [c])
  {
    ConditionsSnoc(applied, c, 1);
  }

  /** Lines 55-77 of `findAll`: each present filter pushes one condition
      and one parameter, and `paramIdx` counts the placeholders used. */
  method BuildFilter(filter: TaskFilter) returns (conditions: seq<string>, params: seq<SqlParam>, paramIdx: nat)
    ensures conditions == ConditionsFrom(Criteria(filter), 1)
    ensures params == ParamsOf(Criteria(filter))
    ensures paramIdx == |params| + 1
  {
    ghost var s1 := if filter.status.Some? then [StatusIs(filter.status.value)] else [];
    ghost var s2 := if filter.priority.Some? then [PriorityIs(filter.priority.value)] else [];
    ghost var s3 := if Truthy(filter.assigneeId) then [AssigneeIs(filter.assigneeId.value)] else [];
    ghost var s4 := if Truthy(filter.search) then [SearchFor(filter.search.value)] else [];
    conditions := [];
    params := [];
    paramIdx := 1;
    if filter.status.Some? {
      AlignedStep(conditions, params, paramIdx, [], StatusIs(filter.status.value));
      conditions := conditions + ["status = " + Placeholder(paramIdx)];
      paramIdx := paramIdx + 1;
      params := params + [Text(StatusName(filter.status.value))];
    }
    assert Aligned(conditions, params, paramIdx, s1);
    if filter.priority.Some? {
      AlignedStep(conditions, params, paramIdx, s1, PriorityIs(filter.priority.value));
      conditions := conditions + ["priority = " + Placeholder(paramIdx)];
      paramIdx := paramIdx + 1;
      params := params + [Text(PriorityName(filter.priority.value))];
    } else {
      assert s1 + s2 == s1;
    }
    assert Aligned(conditions, params, paramIdx, s1 + s2);
    if Truthy(filter.assigneeId) {
      AlignedStep(conditions, params, paramIdx, s1 + s2, AssigneeIs(filter.assigneeId.value));
      conditions := conditions + ["assignee_id = " + Placeholder(paramIdx)];
      paramIdx := paramIdx + 1;
      params := params + [Text(filter.assigneeId.value)];
    } else {
      assert s1 + s2 + s3 == s1 + s2;
    }
    assert Aligned(conditions, params, paramIdx, s1 + s2 + s3);
    if Truthy(filter.search) {
      AlignedStep(conditions, params, paramIdx, s1 + s2 + s3, SearchFor(filter.search.value));
      conditions := conditions + ["(title ILIKE " + Placeholder(paramIdx) + " OR description ILIKE " + Placeholder(paramIdx) + ")"];
      params := params + [Text("%" + filter.search.value + "%")];
      paramIdx := paramIdx + 1;
    } else {
      assert s1 + s2 + s3 + s4 == s1 + s2 + s3;
    }
    assert Aligned(conditions, params, paramIdx, s1 + s2 + s3 + s4);
    assert Criteria(filter) == s1 + s2 + s3 + s4;
  }

  /** `parts.join(sep)`. */
  function Join(parts: seq<string>, sep: string): (r: string)
    ensures parts == [] ==> r == ""
    ensures |parts| == 1 ==> r == parts[0]
  {
    if parts == [] then ""
    else if |parts| == 1 then parts[0]
    else parts[0] + sep + Join(parts[1..], sep)
  }

  /** Line 79-80: no WHERE clause without conditions. */
  function WhereClause(conditions: seq<string>): (r: string)
    ensures r == "" <==> conditions == []
  {
    if |conditions| > 0 then "WHERE " + Join(conditions, " AND ") else ""
  }

  /** The queries and argument lists `findAll` sends: the count query with
      the filter parameters, and the data query whose LIMIT and OFFSET
      placeholders come right after them. */
  method BuildQueries(filter: TaskFilter, pagination: PaginationParams)
    returns (countQuery: string, countArgs: seq<SqlParam>, dataQuery: string, dataArgs: seq<SqlParam>)
    requires ValidPagination(pagination)
    ensures countArgs == ParamsOf(Criteria(filter))
    ensures countQuery == "SELECT COUNT(*) as total FROM tasks " + WhereClause(ConditionsFrom(Criteria(filter), 1))
    ensures dataQuery == "SELECT * FROM tasks " + WhereClause(ConditionsFrom(Criteria(filter), 1))
                         + " ORDER BY created_at DESC LIMIT " + Placeholder(|countArgs| + 1)
                         + " OFFSET " + Placeholder(|countArgs| + 2)
    ensures |dataArgs| == |countArgs| + 2 && dataArgs[..|countArgs|] == countArgs
    ensures dataArgs[|countArgs|] == Number(pagination.limit)
    ensures dataArgs[|countArgs| + 1] == Number(Offset(pagination))
  {
    var conditions, params, paramIdx := BuildFilter(filter);
    var where := WhereClause(conditions);
    countQuery := "SELECT COUNT(*) as total FROM tasks " + where;
    countArgs := params;
    var offset := Offset(pagination);
    var limitIdx := paramIdx;
    paramIdx := paramIdx + 1;
    dataQuery := "SELECT * FROM tasks " + where + " ORDER BY created_at DESC LIMIT " + Placeholder(limitIdx)
                 + " OFFSET " + Placeholder(paramIdx);
    dataArgs := params + [Number(pagination.limit), Number(offset)];
  }

  /** Placeholder `$k` of a filter's conditions is bound to the `k`-th
      parameter, which is the value of the criterion that condition tests;
      no other condition shares that placeholder. */
  lemma PlaceholdersMatchParams(filter: TaskFilter, i: nat, j: nat)
    requires i < |Criteria(filter)|
    ensures var cs := Criteria(filter);
      && ConditionsFrom(cs, 1)[i] == ConditionSql(cs[i], i + 1)
      && ParamsOf(cs)[i] == ParamFor(cs[i])
    ensures j < |Criteria(filter)| && i != j ==> Placeholder(i + 1) != Placeholder(j + 1)
  {
    ConditionsAt(Criteria(filter), 1, i);
    PlaceholdersDistinct(i + 1, j + 1);
  }

  /** The WHERE clause is empty exactly when no filter field is set (an
      empty assignee or search string counts as unset). */
  lemma WhereEmptyIffNoFilter(filter: TaskFilter)
    ensures WhereClause(ConditionsFrom(Criteria(filter), 1)) == "" <==>
      filter.status.None? && filter.priority.None? && !Truthy(filter.assigneeId) && !Truthy(filter.search)
  {
  }

  /** `rowToEntity`: a null `tags` column becomes the empty list. */
  function RowToEntity(row: TaskRow): (t: TaskProps)
    ensures t.tags == row.tags.GetOr([])
    ensures t.id == row.id && t.status == row.status && t.createdAt == row.createdAt
  {
    TaskProps(
      id := row.id,
      title := row.title,
      description := row.description,
      status := row.status,
      priority := row.priority,
      assigneeId := row.assigneeId,
      dueDate := row.dueDate,
      tags := row.tags.GetOr([]),
      createdAt := row.createdAt,
      updatedAt := row.updatedAt)
  }

  /** The row `save` inserts: every column from `toJSON`. */
  function InsertedRow(t: TaskProps): TaskRow {
    TaskRow(t.id, t.title, t.description, t.status, t.priority, t.assigneeId, t.dueDate,
            Some(t.tags), t.createdAt, t.updatedAt)
  }

  /** A saved task reads back unchanged; a row reads back to itself once
      saved again, except that null tags come back as an empty list. */
  lemma RowRoundTrip(t: TaskProps, row: TaskRow)
    ensures RowToEntity(InsertedRow(t)) == t
    ensures InsertedRow(RowToEntity(row)) == row.(tags := Some(row.tags.GetOr([])))
  {
  }

  /** The page `findAll` returns from the count text and the data rows the
      database sent back. */
  function PageFromRows(countText: string, rows: seq<TaskRow>, pagination: PaginationParams): (r: PaginatedResult<TaskProps>)
    requires |countText| > 0 && IsDigits(countText) && ValidPagination(pagination)
    ensures |r.data| == |rows| && forall k :: 0 <= k < |rows| ==> r.data[k] == RowToEntity(rows[k])
    ensures r.total == ParseDecimal(countText)
    ensures r.page == pagination.page && r.limit == pagination.limit
    ensures r.totalPages == TotalPages(r.total, r.limit)
  {
    var total := ParseDecimal(countText);
    PaginatedResult(RowsToEntities(rows), total, pagination.page, pagination.limit, TotalPages(total, pagination.limit))
  }

  /** `rows.map(rowToEntity)`. */
  function RowsToEntities(rows: seq<TaskRow>): (r: seq<TaskProps>)
    ensures |r| == |rows| && forall k :: 0 <= k < |rows| ==> r[k] == RowToEntity(rows[k])
  {
    if rows == [] then [] else [RowToEntity(rows[0])] + RowsToEntities(rows[1..])
  }

  /** `delete`: true iff the driver reports at least one deleted row; a
      missing row count counts as zero. */
  function DeleteSucceeded(rowCount: Option<nat>): (r: bool)
    ensures r <==> rowCount.Some? && rowCount.value > 0
  {
    rowCount.GetOr(0) > 0
  }
}
