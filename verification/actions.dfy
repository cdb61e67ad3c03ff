/** The server actions of src/lib/actions.ts: the catalog fetches with their
    empty-list fallbacks, the parameterised SELECT builder behind
    `executeQueryAction`, and the schema shaping done before the validation and
    translation flows are called. The database (`query`) is a parameter. */
module Actions {
  import opened Common

  /** A table as the table-listing query returns it. */
  datatype TableInfo = TableInfo(name: string, description: string)

  /** A column as information_schema.COLUMNS returns it, in ORDINAL_POSITION order. */
  datatype CatalogColumn = CatalogColumn(
    name: string, sqlType: string, nullable: string, defaultValue: Option<string>, description: string)

  /** One condition of the conjunctive WHERE clause. The operator is free text
      here: the action copies it into the statement without checking it. */
  datatype WhereClause = WhereClause(column: string, operator: string, value: string)

  datatype Direction = Asc | Desc

  /** What a failed database call threw: an `Error` (with its message) or any other value. */
  datatype Thrown = ErrorObject(message: string) | OtherValue

  /** The arguments of one `executeQueryAction` call; `None` is an omitted argument. */
  datatype ExecuteRequest = ExecuteRequest(
    tableName: string,
    whereClauses: seq<WhereClause>,
    limit: Option<int>,
    orderByColumn: Option<string>,
    orderDirection: Option<Direction>)

  /** What the validation flow is given. */
  datatype ValidatorInput = ValidatorInput(naturalLanguageQuery: string, tableNames: string, expectedOutput: string)

  /** What the translation flow is given. */
  datatype TranslatorInput = TranslatorInput(
    naturalLanguageQuery: string, tableNames: seq<string>, columnDescriptions: map<string, string>)

  /** The database: runs a statement with its bind parameters. */
  type Database = (string, seq<string>) -> Result<seq<Row>, Thrown>

  const DefaultLimit: int := 100

  /* ---------------- catalog fetches ---------------- */

  /** `getTablesAction`: a failed fetch is reported as no tables. */
  function TablesOrEmpty(fetched: Result<seq<TableInfo>, Thrown>): (tables: seq<TableInfo>)
    ensures fetched.Ok? ==> tables == fetched.value
    ensures fetched.Err? ==> tables == []
  {
    match fetched
    case Ok(ts) => ts
    case Err(_) => []
  }

  /** `getTableColumnsAction`: a failed fetch is reported as no columns. */
  function ColumnsOrEmpty(fetched: Result<seq<CatalogColumn>, Thrown>): (columns: seq<CatalogColumn>)
    ensures fetched.Ok? ==> columns == fetched.value
    ensures fetched.Err? ==> columns == []
  {
    match fetched
    case Ok(cs) => cs
    case Err(_) => []
  }

  /* ---------------- the SELECT statement ---------------- */

  function EffectiveLimit(limit: Option<int>): int
  {
    if limit.Some? then limit.value else DefaultLimit
  }

  function EffectiveDirection(dir: Option<Direction>): Direction
  {
    if dir.Some? then dir.value else Asc
  }

  /** `orderDirection.toUpperCase()`. */
  function DirectionKeyword(dir: Direction): string
  {
    match dir
    case Asc => "ASC"
    case Desc => "DESC"
  }

  /** The text of a condition before its placeholder. */
  function ConditionHead(c: WhereClause): string
  {
    if c.operator == "LIKE" then "`" + c.column + "` LIKE " else "`" + c.column + "` " + c.operator + " "
  }

  /** The SQL fragment a condition contributes. */
  function ConditionText(c: WhereClause): string
  {
    ConditionHead(c) + "?"
  }

  /** The bind parameter a condition contributes: LIKE values are wrapped in `%`. */
  function BindValue(c: WhereClause): string
  {
    if c.operator == "LIKE" then "%" + c.value + "%" else c.value
  }

  function Conditions(cs: seq<WhereClause>): seq<string>
  {
    seq(|cs|, i requires 0 <= i < |cs| => ConditionText(cs[i]))
  }

  function Params(cs: seq<WhereClause>): seq<string>
  {
    seq(|cs|, i requires 0 <= i < |cs| => BindValue(cs[i]))
  }

  function OrderPart(orderByColumn: Option<string>, dir: Direction): string
  {
    if Truthy(orderByColumn) then " ORDER BY `" + orderByColumn.value + "` " + DirectionKeyword(dir) else ""
  }

  function LimitPart(limit: int): string
  {
    if limit != 0 then " LIMIT " + IntToString(limit) else ""
  }

  function SelectHead(tableName: string): string
  {
    "SELECT * FROM `" + tableName + "`"
  }

  function WherePart(conditions: seq<string>): string
  {
    if |conditions| > 0 then " WHERE " + Join(conditions, " AND ") else ""
  }

  /** The statement shape, for any rendering of the conditions. */
  function SelectWith(tableName: string, conditions: seq<string>, limit: int, orderByColumn: Option<string>, dir: Direction): string
  {
    SelectHead(tableName) + WherePart(conditions) + OrderPart(orderByColumn, dir) + LimitPart(limit)
  }

  /** The statement `executeQueryAction` sends for a request. */
  function SelectText(req: ExecuteRequest): string
  {
    SelectWith(req.tableName, Conditions(req.whereClauses), EffectiveLimit(req.limit),
               req.orderByColumn, EffectiveDirection(req.orderDirection))
  }

  /** The callback of the clause `map`: the fragment it returns and the
      parameter it pushes. */
  method MapClause(c: WhereClause) returns (condition: string, param: string)
    ensures condition == ConditionText(c) && param == BindValue(c)
  {
    if c.operator == "LIKE" {
      param := "%" + c.value + "%";
      condition := "`" + c.column + "` LIKE ?";
    } else {
      param := c.value;
      condition := "`" + c.column + "` " + c.operator + " ?";
    }
  }

  /** The clause loop of `executeQueryAction`: maps each clause to its
      fragment while pushing its parameter, in clause order. */
  method MapClauses(cs: seq<WhereClause>) returns (conditions: seq<string>, params: seq<string>)
    ensures |conditions| == |cs| && |params| == |cs|
    ensures forall i :: 0 <= i < |cs| ==> conditions[i] == ConditionText(cs[i]) && params[i] == BindValue(cs[i])
  {
    conditions, params := [], [];
    var i := 0;
    while i < |cs|
      invariant 0 <= i <= |cs|
      invariant |conditions| == i && |params| == i
      invariant forall k :: 0 <= k < i ==> conditions[k] == ConditionText(cs[k]) && params[k] == BindValue(cs[k])
    {
      var condition, param := MapClause(cs[i]);
      params := params + [param];
      conditions := conditions + [condition];
      i := i + 1;
    }
  }

  /** Builds the statement and its parameters the way `executeQueryAction`
      does: the text grows by appending WHERE, ORDER BY and LIMIT parts. */
  method BuildSelect(req: ExecuteRequest) returns (sql: string, params: seq<string>)
    ensures params == Params(req.whereClauses)
    ensures sql == SelectText(req)
  {
    var limit := if req.limit.Some? then req.limit.value else DefaultLimit;
    var dir := if req.orderDirection.Some? then req.orderDirection.value else Asc;
    var cs := req.whereClauses;
    sql := SelectHead(req.tableName);
    params := [];
    if |cs| > 0 {
      var conditions;
      conditions, params := MapClauses(cs);
      assert conditions == Conditions(cs);
      sql := sql + WherePart(conditions);
    } else {
      assert sql == sql + WherePart(Conditions(cs));
    }
    if req.orderByColumn.Some? && req.orderByColumn.value != "" {
      sql := sql + OrderPart(req.orderByColumn, dir);
    } else {
      assert sql == sql + OrderPart(req.orderByColumn, dir);
    }
    if limit != 0 {
      sql := sql + LimitPart(limit);
    } else {
      assert sql == sql + LimitPart(limit);
    }
  }

  /** The message `executeQueryAction` rethrows with. */
  function FailureMessage(t: Thrown): string
  {
    "Database query failed: " + (match t case ErrorObject(m) => m case OtherValue => "Unknown error")
  }

  /** What an `executeQueryAction` call settles to: the rows, or the
      rethrown error's message. */
  function ExecuteOutcome(db: Database, req: ExecuteRequest): Result<seq<Row>, string>
  {
    match db(SelectText(req), Params(req.whereClauses))
    case Ok(rows) => Ok(rows)
    case Err(t) => Err(FailureMessage(t))
  }

  /** `executeQueryAction`: the rows the database returns for the built
      statement, or the wrapped failure message. */
  method ExecuteQueryAction(db: Database, req: ExecuteRequest) returns (r: Result<seq<Row>, string>)
    ensures db(SelectText(req), Params(req.whereClauses)).Ok? ==>
              r == Ok(db(SelectText(req), Params(req.whereClauses)).value)
    ensures db(SelectText(req), Params(req.whereClauses)).Err? ==>
              r == Err(FailureMessage(db(SelectText(req), Params(req.whereClauses)).error))
    ensures r == ExecuteOutcome(db, req)
  {
    var sql, params := BuildSelect(req);
    assert params == Params(req.whereClauses);
    var answer := db(sql, params);
    match answer
    case Ok(rows) => r := Ok(rows);
    case Err(t) => r := Err(FailureMessage(t));
  }

  /* ---------------- properties of the statement ---------------- */

  /** With no clauses there is no WHERE part and no parameter. */
  lemma EmptyClausesNoWhere(req: ExecuteRequest)
    requires req.whereClauses == []
    ensures Params(req.whereClauses) == []
    ensures SelectText(req) == SelectHead(req.tableName) + OrderPart(req.orderByColumn, EffectiveDirection(req.orderDirection))
                               + LimitPart(EffectiveLimit(req.limit))
  {
    assert WherePart(Conditions(req.whereClauses)) == "";
    assert SelectHead(req.tableName) + "" == SelectHead(req.tableName);
  }

  /** Identifiers that the action interpolates hold no `?` of their own. */
  predicate NoPlaceholderInIdentifiers(req: ExecuteRequest)
  {
    && '?' !in req.tableName
    && (forall c :: c in req.whereClauses ==> '?' !in c.column && '?' !in c.operator)
    && (req.orderByColumn.Some? ==> '?' !in req.orderByColumn.value)
  }

  lemma ConditionHasOnePlaceholder(c: WhereClause)
    requires '?' !in c.column && '?' !in c.operator
    ensures CountChar(ConditionText(c), '?') == 1
    ensures '?' !in ConditionHead(c)
  {
    CountCharZero(ConditionHead(c), '?');
    CountCharAppend(ConditionHead(c), "?", '?');
  }

  lemma WherePartCount(cs: seq<WhereClause>)
    requires forall c :: c in cs ==> '?' !in c.column && '?' !in c.operator
    ensures CountChar(WherePart(Conditions(cs)), '?') == |cs|
  {
    var conds := Conditions(cs);
    if |cs| > 0 {
      forall i | 0 <= i < |conds| ensures CountChar(conds[i], '?') == 1 {
        assert cs[i] in cs;
        ConditionHasOnePlaceholder(cs[i]);
      }
      CountCharZero(" AND ", '?');
      CountCharJoin(conds, " AND ", '?', 1);
      CountCharZero(" WHERE ", '?');
      CountCharAppend(" WHERE ", Join(conds, " AND "), '?');
    }
  }

  /** The head, ORDER BY and LIMIT parts hold no placeholder. */
  lemma FixedPartsHaveNoPlaceholder(req: ExecuteRequest)
    requires NoPlaceholderInIdentifiers(req)
    ensures '?' !in SelectHead(req.tableName)
    ensures '?' !in OrderPart(req.orderByColumn, EffectiveDirection(req.orderDirection))
    ensures '?' !in LimitPart(EffectiveLimit(req.limit))
  {
    IntToStringHasNo(EffectiveLimit(req.limit), '?');
    CountCharZero(IntToString(EffectiveLimit(req.limit)), '?');
  }

  /** Placeholders of a statement whose other parts have none are those of its WHERE part. */
  lemma StatementCount(head: string, where: string, order: string, limit: string)
    requires '?' !in head && '?' !in order && '?' !in limit
    ensures CountChar(head + where + order + limit, '?') == CountChar(where, '?')
  {
    CountCharZero(order, '?');
    CountCharZero(limit, '?');
    CountCharZero(head, '?');
    CountCharAppend(head, where, '?');
    CountCharAppend(head + where, order, '?');
    CountCharAppend(head + where + order, limit, '?');
  }

  /** The statement holds exactly one `?` per bind parameter. */
  lemma PlaceholdersMatchParams(req: ExecuteRequest)
    requires NoPlaceholderInIdentifiers(req)
    ensures CountChar(SelectText(req), '?') == |Params(req.whereClauses)|
  {
    var dir := EffectiveDirection(req.orderDirection);
    WherePartCount(req.whereClauses);
    FixedPartsHaveNoPlaceholder(req);
    StatementCount(SelectHead(req.tableName), WherePart(Conditions(req.whereClauses)),
                   OrderPart(req.orderByColumn, dir), LimitPart(EffectiveLimit(req.limit)));
  }

  /** Clause values reach only the parameters: two requests that differ only in
      their values produce the same statement text. */
  lemma {:induction false} ValuesNeverInSql(r1: ExecuteRequest, r2: ExecuteRequest)
    requires r1.tableName == r2.tableName && r1.limit == r2.limit
    requires r1.orderByColumn == r2.orderByColumn && r1.orderDirection == r2.orderDirection
    requires |r1.whereClauses| == |r2.whereClauses|
    requires forall i :: 0 <= i < |r1.whereClauses| ==>
               r1.whereClauses[i].column == r2.whereClauses[i].column &&
               r1.whereClauses[i].operator == r2.whereClauses[i].operator
    ensures SelectText(r1) == SelectText(r2)
  {
    assert Conditions(r1.whereClauses) == Conditions(r2.whereClauses);
  }

  lemma DefaultLimitText()
    ensures LimitPart(EffectiveLimit(None)) == " LIMIT 100"
  {
    assert NatToString(10) == "10";
    assert NatToString(100) == "100";
  }

  /** With limit and direction omitted, the statement ends in LIMIT 100, after
      an ascending ORDER BY exactly when an order column is set and non-empty. */
  lemma DefaultSuffixes(req: ExecuteRequest)
    requires req.limit == None && req.orderDirection == None
    ensures SelectText(req) ==
              SelectHead(req.tableName) + WherePart(Conditions(req.whereClauses))
              + (if Truthy(req.orderByColumn) then " ORDER BY `" + req.orderByColumn.value + "` ASC" else "")
              + " LIMIT 100"
  {
    DefaultLimitText();
  }

  /** A zero limit drops the LIMIT part; any other limit is printed so that it
      reads back as the same number. */
  lemma LimitText(limit: int)
    ensures limit == 0 ==> LimitPart(limit) == ""
    ensures limit > 0 ==> LimitPart(limit) == " LIMIT " + NatToString(limit) &&
                          DigitsValue(NatToString(limit)) == limit
  {
    if limit > 0 {
      NatToStringRoundTrip(limit);
    }
  }

  /* ---------------- what the bound statement stands for ---------------- */

  function Quote(v: string): string
  {
    "'" + v + "'"
  }

  /** The text a bound statement stands for: every `?`, left to right, replaced
      by the next parameter as a quoted literal. */
  function Substitute(s: string, ps: seq<string>): string
  {
    if |s| == 0 then ""
    else if s[0] == '?' && |ps| > 0 then Quote(ps[0]) + Substitute(s[1..], ps[1..])
    else [s[0]] + Substitute(s[1..], ps)
  }

  /** A condition as it reads once its value is bound. */
  function BoundCondition(c: WhereClause): string
  {
    ConditionHead(c) + Quote(BindValue(c))
  }

  function BoundConditions(cs: seq<WhereClause>): seq<string>
  {
    seq(|cs|, i requires 0 <= i < |cs| => BoundCondition(cs[i]))
  }

  lemma {:induction false} SubstituteAppend(a: string, b: string, ps: seq<string>)
    requires CountChar(a, '?') <= |ps|
    ensures Substitute(a + b, ps) ==
            Substitute(a, ps[..CountChar(a, '?')]) + Substitute(b, ps[CountChar(a, '?')..])
  {
    var k := CountChar(a, '?');
    if |a| == 0 {
      assert a + b == b;
      assert ps[k..] == ps;
    } else {
      assert (a + b)[0] == a[0];
      assert (a + b)[1..] == a[1..] + b;
      if a[0] == '?' {
        SubstituteAppend(a[1..], b, ps[1..]);
        assert ps[..k][1..] == ps[1..][..k - 1];
        assert ps[1..][k - 1..] == ps[k..];
      } else {
        SubstituteAppend(a[1..], b, ps);
      }
    }
  }

  lemma {:induction false} SubstituteNoPlaceholder(s: string, ps: seq<string>)
    requires '?' !in s
    ensures Substitute(s, ps) == s
  {
    if |s| > 0 {
      assert forall j :: 0 <= j < |s[1..]| ==> s[1..][j] == s[j + 1];
      SubstituteNoPlaceholder(s[1..], ps);
    }
  }

  /** Binding one parameter into a condition quotes it after the condition's head. */
  lemma BindCondition(c: WhereClause, p: string)
    requires '?' !in c.column && '?' !in c.operator
    ensures Substitute(ConditionText(c), [p]) == ConditionHead(c) + Quote(p)
  {
    ConditionHasOnePlaceholder(c);
    CountCharZero(ConditionHead(c), '?');
    SubstituteAppend(ConditionHead(c), "?", [p]);
    assert [p][..0] == [] && [p][0..] == [p];
    SubstituteNoPlaceholder(ConditionHead(c), []);
    assert Substitute("?", [p]) == Quote(p) + Substitute("", []);
    assert Quote(p) + "" == Quote(p);
  }

  /** Binding the first parameter into the first condition and its separator. */
  lemma BindFirstCondition(c: WhereClause)
    requires '?' !in c.column && '?' !in c.operator
    ensures CountChar(ConditionText(c) + " AND ", '?') == 1
    ensures Substitute(ConditionText(c) + " AND ", [BindValue(c)]) == BoundCondition(c) + " AND "
  {
    ConditionHasOnePlaceholder(c);
    CountCharZero(" AND ", '?');
    CountCharAppend(ConditionText(c), " AND ", '?');
    BindBeforeSuffix(ConditionText(c), " AND ", [BindValue(c)]);
    BindCondition(c, BindValue(c));
  }

  /** Binding the parameters into the joined conditions yields the joined bound conditions. */
  lemma {:induction false} BindJoined(cs: seq<WhereClause>, ps: seq<string>)
    requires |cs| > 0
    requires forall i :: 0 <= i < |cs| ==> '?' !in cs[i].column && '?' !in cs[i].operator
    requires |ps| == |cs| && forall i :: 0 <= i < |cs| ==> ps[i] == BindValue(cs[i])
    ensures Substitute(Join(Conditions(cs), " AND "), ps) == Join(BoundConditions(cs), " AND ")
  {
    var conds := Conditions(cs);
    if |cs| == 1 {
      assert ps == [BindValue(cs[0])];
      BindCondition(cs[0], ps[0]);
    } else {
      BindFirstCondition(cs[0]);
      assert ps[..1] == [BindValue(cs[0])];
      SubstituteAppend(conds[0] + " AND ", Join(conds[1..], " AND "), ps);
      assert conds[1..] == Conditions(cs[1..]);
      assert BoundConditions(cs)[1..] == BoundConditions(cs[1..]);
      BindJoined(cs[1..], ps[1..]);
    }
  }

  lemma BindWherePart(cs: seq<WhereClause>)
    requires forall c :: c in cs ==> '?' !in c.column && '?' !in c.operator
    ensures Substitute(WherePart(Conditions(cs)), Params(cs)) == WherePart(BoundConditions(cs))
  {
    if |cs| > 0 {
      var joined := Join(Conditions(cs), " AND ");
      CountCharZero(" WHERE ", '?');
      SubstituteAppend(" WHERE ", joined, Params(cs));
      assert Params(cs)[..0] == [] && Params(cs)[0..] == Params(cs);
      SubstituteNoPlaceholder(" WHERE ", []);
      assert forall i :: 0 <= i < |cs| ==> cs[i] in cs;
      BindJoined(cs, Params(cs));
    }
  }

  /** Text without placeholders in front of the bound part is kept. */
  lemma BindAfterPrefix(a: string, b: string, ps: seq<string>)
    requires '?' !in a
    ensures Substitute(a + b, ps) == a + Substitute(b, ps)
  {
    CountCharZero(a, '?');
    SubstituteAppend(a, b, ps);
    assert ps[..0] == [] && ps[0..] == ps;
    SubstituteNoPlaceholder(a, []);
  }

  /** Text without placeholders after a part that uses up every parameter is kept. */
  lemma BindBeforeSuffix(a: string, b: string, ps: seq<string>)
    requires '?' !in b && CountChar(a, '?') == |ps|
    ensures Substitute(a + b, ps) == Substitute(a, ps) + b
  {
    SubstituteAppend(a, b, ps);
    assert ps[..|ps|] == ps && ps[|ps|..] == [];
    SubstituteNoPlaceholder(b, []);
  }

  /** Binding into a statement whose placeholders all lie in its WHERE part. */
  lemma BindStatement(head: string, where: string, order: string, limit: string, ps: seq<string>, bound: string)
    requires '?' !in head && '?' !in order && '?' !in limit
    requires CountChar(where, '?') == |ps| && Substitute(where, ps) == bound
    ensures Substitute(head + where + order + limit, ps) == head + bound + order + limit
  {
    CountCharZero(head, '?');
    CountCharZero(order, '?');
    CountCharAppend(head, where, '?');
    CountCharAppend(head + where, order, '?');
    BindBeforeSuffix(head + where + order, limit, ps);
    BindBeforeSuffix(head + where, order, ps);
    BindAfterPrefix(head, where, ps);
  }

  /** Binding the parameters, in order, into the statement's placeholders gives
      the statement with each condition's own value quoted in its place: the
      i-th parameter belongs to the i-th clause. */
  lemma BindingsFillPlaceholdersInOrder(req: ExecuteRequest)
    requires NoPlaceholderInIdentifiers(req)
    ensures Substitute(SelectText(req), Params(req.whereClauses)) ==
            SelectWith(req.tableName, BoundConditions(req.whereClauses), EffectiveLimit(req.limit),
                       req.orderByColumn, EffectiveDirection(req.orderDirection))
  {
    var cs := req.whereClauses;
    var dir := EffectiveDirection(req.orderDirection);
    FixedPartsHaveNoPlaceholder(req);
    WherePartCount(cs);
    BindWherePart(cs);
    BindStatement(SelectHead(req.tableName), WherePart(Conditions(cs)), OrderPart(req.orderByColumn, dir),
                  LimitPart(EffectiveLimit(req.limit)), Params(cs), WherePart(BoundConditions(cs)));
  }

  /* ---------------- schema shaping for the flows ---------------- */

  function TableNames(tables: seq<TableInfo>): seq<string>
  {
    seq(|tables|, i requires 0 <= i < |tables| => tables[i].name)
  }

  /** `validateQueryAction`: the table names, fetched with the empty fallback,
      joined by ", ". */
  function ValidateQueryAction(naturalLanguageQuery: string, expectedOutput: string,
                               fetched: Result<seq<TableInfo>, Thrown>): (input: ValidatorInput)
    ensures input.naturalLanguageQuery == naturalLanguageQuery && input.expectedOutput == expectedOutput
    ensures fetched.Err? ==> input.tableNames == ""
    ensures fetched.Ok? && |fetched.value| == 0 ==> input.tableNames == ""
    ensures fetched.Ok? && |fetched.value| == 1 ==> input.tableNames == fetched.value[0].name
    ensures fetched.Ok? && |fetched.value| > 1 ==>
              input.tableNames == fetched.value[0].name + ", " + Join(TableNames(fetched.value[1..]), ", ")
  {
    var names := TableNames(TablesOrEmpty(fetched));
    assert fetched.Ok? && |fetched.value| > 1 ==> names[1..] == TableNames(fetched.value[1..]);
    ValidatorInput(naturalLanguageQuery, Join(names, ", "), expectedOutput)
  }

  /** `"name (type)"` for one catalog column. */
  function ColumnLabel(c: CatalogColumn): string
  {
    c.name + " (" + c.sqlType + ")"
  }

  /** The description of one table: its column labels in catalog order, joined by ", ". */
  function DescribeColumns(columns: seq<CatalogColumn>): string
  {
    Join(seq(|columns|, i requires 0 <= i < |columns| => ColumnLabel(columns[i])), ", ")
  }

  /** `generateSqlAction`: fetches the tables (empty on failure) and, table by
      table, the columns (empty on failure) to fill the per-table description
      map the translation flow is given. */
  method GenerateSqlAction(naturalLanguageQuery: string,
                           fetchedTables: Result<seq<TableInfo>, Thrown>,
                           catalog: string -> Result<seq<CatalogColumn>, Thrown>)
    returns (input: TranslatorInput)
    ensures input.naturalLanguageQuery == naturalLanguageQuery
    ensures input.tableNames == TableNames(TablesOrEmpty(fetchedTables))
    ensures forall n :: n in input.columnDescriptions <==> n in input.tableNames
    ensures forall n :: n in input.columnDescriptions ==>
              input.columnDescriptions[n] == DescribeColumns(ColumnsOrEmpty(catalog(n)))
  {
    var tables := TablesOrEmpty(fetchedTables);
    var tableNames := TableNames(tables);
    var columnDescriptions: map<string, string> := map[];
    var i := 0;
    while i < |tables|
      invariant 0 <= i <= |tables|
      invariant forall n :: n in columnDescriptions <==> n in tableNames[..i]
      invariant forall n :: n in columnDescriptions ==>
                  columnDescriptions[n] == DescribeColumns(ColumnsOrEmpty(catalog(n)))
    {
      var table := tables[i];
      var columns := ColumnsOrEmpty(catalog(table.name));
      columnDescriptions := columnDescriptions[table.name := DescribeColumns(columns)];
      assert tableNames[..i + 1] == tableNames[..i] + [table.name];
      i := i + 1;
    }
    assert tableNames[..i] == tableNames;
    input := TranslatorInput(naturalLanguageQuery, tableNames, columnDescriptions);
  }

  /** A failed catalog fetch cannot be told apart from an empty catalog: both
      read as no tables or no columns, and both give the validation flow the
      same input. A successful fetch is passed on unchanged. */
  lemma FailedFetchLooksEmpty(e: Thrown, naturalLanguageQuery: string, expectedOutput: string,
                              tables: seq<TableInfo>, columns: seq<CatalogColumn>)
    ensures TablesOrEmpty(Err(e)) == TablesOrEmpty(Ok([])) == []
    ensures ColumnsOrEmpty(Err(e)) == ColumnsOrEmpty(Ok([])) == []
    ensures TablesOrEmpty(Ok(tables)) == tables && ColumnsOrEmpty(Ok(columns)) == columns
    ensures ValidateQueryAction(naturalLanguageQuery, expectedOutput, Err(e))
            == ValidateQueryAction(naturalLanguageQuery, expectedOutput, Ok([]))
    ensures DescribeColumns(ColumnsOrEmpty(Err(e))) == ""
  {
  }
}
