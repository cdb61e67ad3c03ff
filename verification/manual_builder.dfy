/** The manual query builder of
    src/components/query-wise/manual-query-builder.tsx: the editable list of
    WHERE conditions (pure list-to-list transforms) and the component state
    its handlers and effects overwrite. */
module ManualBuilder {
  import opened Common
  import opened Actions
  import opened Callbacks

  /** One editable condition row; `id` is its React key. */
  datatype Clause = Clause(id: int, column: string, operator: string, value: string)

  /** The fields `handleClauseChange` may set (every field but `id`). */
  datatype ClauseField = ColumnField | OperatorField | ValueField

  /** The operators the operator picker offers. */
  const Operators: seq<string> := ["=", "!=", ">", "<", ">=", "<=", "LIKE"]

  /** A fresh condition: no column, `=`, no value. */
  function DefaultClause(id: int): Clause
  {
    Clause(id, "", "=", "")
  }

  /** The list the builder starts with and resets to. */
  const InitialClauses: seq<Clause> := [DefaultClause(1)]

  /* ---------------- the clause transforms ---------------- */

  /** `{ ...clause, [field]: value }`. */
  function SetField(c: Clause, field: ClauseField, v: string): (r: Clause)
    ensures r.id == c.id
    ensures r.column == (if field == ColumnField then v else c.column)
    ensures r.operator == (if field == OperatorField then v else c.operator)
    ensures r.value == (if field == ValueField then v else c.value)
  {
    match field
    case ColumnField => c.(column := v)
    case OperatorField => c.(operator := v)
    case ValueField => c.(value := v)
  }

  /** The field a row shows: `clause.column`, `clause.operator`, `clause.value`. */
  function FieldOf(c: Clause, field: ClauseField): string
  {
    match field
    case ColumnField => c.column
    case OperatorField => c.operator
    case ValueField => c.value
  }

  /** Setting a field writes that field and nothing else: the row shows the
      new value there and its old values elsewhere, the id is kept, writing
      back what is shown changes nothing, and a later write wins. */
  lemma SetFieldLaws(c: Clause, field: ClauseField, other: ClauseField, v: string, w: string)
    ensures FieldOf(SetField(c, field, v), field) == v
    ensures other != field ==> FieldOf(SetField(c, field, v), other) == FieldOf(c, other)
    ensures SetField(c, field, v).id == c.id
    ensures SetField(c, field, FieldOf(c, field)) == c
    ensures SetField(SetField(c, field, v), field, w) == SetField(c, field, w)
  {
  }

  /** The update `handleClauseChange` applies: the field is set in every
      clause carrying `id`, and every other clause is kept as it was. */
  function ChangeClauses(cs: seq<Clause>, id: int, field: ClauseField, v: string): (r: seq<Clause>)
    ensures |r| == |cs|
    ensures forall i :: 0 <= i < |cs| ==> r[i].id == cs[i].id
    ensures forall i :: 0 <= i < |cs| && cs[i].id != id ==> r[i] == cs[i]
    ensures forall i :: 0 <= i < |cs| && cs[i].id == id ==> r[i] == SetField(cs[i], field, v)
  {
    seq(|cs|, i requires 0 <= i < |cs| => if cs[i].id == id then SetField(cs[i], field, v) else cs[i])
  }

  /** The update `addClause` applies. */
  function AppendClause(cs: seq<Clause>, newId: int): seq<Clause>
  {
    cs + [DefaultClause(newId)]
  }

  /** The update `removeClause` applies: `filter(clause => clause.id !== id)`. */
  function RemoveClauses(cs: seq<Clause>, id: int): (r: seq<Clause>)
    ensures |r| <= |cs|
    ensures forall i :: 0 <= i < |r| ==> r[i] in cs && r[i].id != id
  {
    if |cs| == 0 then []
    else RemoveClauses(cs[..|cs| - 1], id) + (if cs[|cs| - 1].id != id then [cs[|cs| - 1]] else [])
  }

  /** A condition `handleRunQuery` sends: both a column and a value are set. */
  predicate IsComplete(c: Clause)
  {
    c.column != "" && c.value != ""
  }

  /** `filter(c => c.column && c.value)`. */
  function ValidClauses(cs: seq<Clause>): (r: seq<Clause>)
    ensures |r| <= |cs|
    ensures forall i :: 0 <= i < |r| ==> r[i] in cs && IsComplete(r[i])
  {
    if |cs| == 0 then []
    else ValidClauses(cs[..|cs| - 1]) + (if IsComplete(cs[|cs| - 1]) then [cs[|cs| - 1]] else [])
  }

  /** The clauses as the action receives them; the `id` goes along but is not read. */
  function ToWhereClauses(cs: seq<Clause>): (r: seq<WhereClause>)
    ensures |r| == |cs|
    ensures forall i :: 0 <= i < |cs| ==>
              r[i].column == cs[i].column && r[i].operator == cs[i].operator && r[i].value == cs[i].value
  {
    seq(|cs|, i requires 0 <= i < |cs| => WhereClause(cs[i].column, cs[i].operator, cs[i].value))
  }

  /** `w` is the condition of some complete row of `cs`. */
  predicate FromCompleteRow(cs: seq<Clause>, w: WhereClause)
  {
    exists j :: 0 <= j < |cs| && IsComplete(cs[j]) && w == WhereClause(cs[j].column, cs[j].operator, cs[j].value)
  }

  /** What `handleRunQuery` sends: one condition per complete row, each made
      of that row's column, operator and value, so no empty column and no
      empty value reaches the statement or its parameters. */
  lemma SentConditions(cs: seq<Clause>)
    ensures |ToWhereClauses(ValidClauses(cs))| == |Params(ToWhereClauses(ValidClauses(cs)))|
    ensures forall i :: 0 <= i < |ToWhereClauses(ValidClauses(cs))| ==>
              ToWhereClauses(ValidClauses(cs))[i].column != "" && Params(ToWhereClauses(ValidClauses(cs)))[i] != ""
    ensures forall i :: 0 <= i < |ToWhereClauses(ValidClauses(cs))| ==>
              FromCompleteRow(cs, ToWhereClauses(ValidClauses(cs))[i])
  {
    var valid := ValidClauses(cs);
    forall i | 0 <= i < |ToWhereClauses(valid)|
      ensures ToWhereClauses(valid)[i].column != "" && Params(ToWhereClauses(valid))[i] != ""
      ensures FromCompleteRow(cs, ToWhereClauses(valid)[i])
    {
      assert IsComplete(valid[i]);
      var j :| 0 <= j < |cs| && cs[j] == valid[i];
      assert ToWhereClauses(valid)[i] == WhereClause(cs[j].column, cs[j].operator, cs[j].value);
    }
  }

  /** The clause ids play no part in what is sent: two lists that differ only
      in their ids send the same conditions. */
  lemma WhereClausesIgnoreIds(cs: seq<Clause>, ds: seq<Clause>)
    requires |cs| == |ds|
    requires forall i :: 0 <= i < |cs| ==> cs[i].(id := 0) == ds[i].(id := 0)
    ensures ToWhereClauses(cs) == ToWhereClauses(ds)
  {
    forall i | 0 <= i < |cs|
      ensures ToWhereClauses(cs)[i] == ToWhereClauses(ds)[i]
    {
      assert cs[i].column == cs[i].(id := 0).column;
      assert ds[i].column == ds[i].(id := 0).column;
    }
  }

  /** The remove button of a row is enabled unless the list has exactly one clause. */
  predicate CanRemove(cs: seq<Clause>)
  {
    |cs| != 1
  }

  function Ids(cs: seq<Clause>): set<int>
  {
    set c | c in cs :: c.id
  }

  predicate DistinctIds(cs: seq<Clause>)
  {
    forall i, j :: 0 <= i < j < |cs| ==> cs[i].id != cs[j].id
  }

  /* ---------------- properties of the transforms ---------------- */

  /** Adding keeps the existing prefix and appends exactly one default clause. */
  lemma AppendKeepsPrefix(cs: seq<Clause>, newId: int)
    ensures |AppendClause(cs, newId)| == |cs| + 1
    ensures AppendClause(cs, newId)[..|cs|] == cs
    ensures AppendClause(cs, newId)[|cs|] == DefaultClause(newId)
  {
  }

  /** Removal keeps the surviving clauses in their original order: it
      distributes over concatenation. */
  lemma {:induction false} RemoveClausesAppend(a: seq<Clause>, b: seq<Clause>, id: int)
    ensures RemoveClauses(a + b, id) == RemoveClauses(a, id) + RemoveClauses(b, id)
  {
    if |b| > 0 {
      var b' := b[..|b| - 1];
      assert (a + b)[..|a + b| - 1] == a + b';
      RemoveClausesAppend(a, b', id);
    } else {
      assert a + b == a;
    }
  }

  /** Every clause without the id survives removal. */
  lemma {:induction false} RemoveClausesKeeps(cs: seq<Clause>, id: int, j: nat)
    requires j < |cs| && cs[j].id != id
    ensures cs[j] in RemoveClauses(cs, id)
  {
    if j < |cs| - 1 {
      RemoveClausesKeeps(cs[..|cs| - 1], id, j);
    }
  }

  /** A list without the id is left as it is. */
  lemma {:induction false} RemoveAbsentId(cs: seq<Clause>, id: int)
    requires forall j :: 0 <= j < |cs| ==> cs[j].id != id
    ensures RemoveClauses(cs, id) == cs
  {
    if |cs| > 0 {
      RemoveAbsentId(cs[..|cs| - 1], id);
      assert cs == cs[..|cs| - 1] + [cs[|cs| - 1]];
    }
  }

  /** Removing twice is removing once. */
  lemma RemoveIdempotent(cs: seq<Clause>, id: int)
    ensures RemoveClauses(RemoveClauses(cs, id), id) == RemoveClauses(cs, id)
  {
    RemoveAbsentId(RemoveClauses(cs, id), id);
  }

  /** Removing a just-added clause under a fresh id restores the list. */
  lemma RemoveUndoesAppend(cs: seq<Clause>, newId: int)
    requires newId !in Ids(cs)
    ensures RemoveClauses(AppendClause(cs, newId), newId) == cs
  {
    RemoveClausesAppend(cs, [DefaultClause(newId)], newId);
    assert forall j :: 0 <= j < |cs| ==> cs[j].id in Ids(cs);
    RemoveAbsentId(cs, newId);
    assert RemoveClauses([DefaultClause(newId)], newId) == [];
  }

  /** Number of clauses carrying `id`. */
  function CountId(cs: seq<Clause>, id: int): nat
  {
    if |cs| == 0 then 0
    else CountId(cs[..|cs| - 1], id) + (if cs[|cs| - 1].id == id then 1 else 0)
  }

  /** Removal drops exactly the clauses carrying the id. */
  lemma {:induction false} RemoveClausesLength(cs: seq<Clause>, id: int)
    ensures |RemoveClauses(cs, id)| == |cs| - CountId(cs, id)
  {
    if |cs| > 0 {
      RemoveClausesLength(cs[..|cs| - 1], id);
    }
  }

  lemma {:induction false} CountDistinct(cs: seq<Clause>, i: nat)
    requires DistinctIds(cs) && i < |cs|
    ensures CountId(cs, cs[i].id) == 1
  {
    var init := cs[..|cs| - 1];
    if i < |cs| - 1 {
      CountDistinct(init, i);
    } else {
      CountAbsent(init, cs[i].id);
    }
  }

  lemma {:induction false} CountAbsent(cs: seq<Clause>, id: int)
    requires forall j :: 0 <= j < |cs| ==> cs[j].id != id
    ensures CountId(cs, id) == 0
  {
    if |cs| > 0 {
      CountAbsent(cs[..|cs| - 1], id);
    }
  }

  /** With distinct ids, removing one row drops exactly that row; so while the
      remove buttons are enabled (two or more clauses), a removal leaves at
      least one clause. */
  lemma RemovalKeepsOne(cs: seq<Clause>, i: nat)
    requires DistinctIds(cs) && i < |cs| && CanRemove(cs)
    ensures |RemoveClauses(cs, cs[i].id)| == |cs| - 1 >= 1
  {
    CountDistinct(cs, i);
    RemoveClausesLength(cs, cs[i].id);
  }

  /** Filtering for complete clauses keeps their order: it distributes over concatenation. */
  lemma {:induction false} ValidClausesAppend(a: seq<Clause>, b: seq<Clause>)
    ensures ValidClauses(a + b) == ValidClauses(a) + ValidClauses(b)
  {
    if |b| > 0 {
      var b' := b[..|b| - 1];
      assert (a + b)[..|a + b| - 1] == a + b';
      ValidClausesAppend(a, b');
    } else {
      assert a + b == a;
    }
  }

  /** Every complete clause is sent. */
  lemma {:induction false} ValidClausesKeeps(cs: seq<Clause>, j: nat)
    requires j < |cs| && IsComplete(cs[j])
    ensures cs[j] in ValidClauses(cs)
  {
    if j < |cs| - 1 {
      ValidClausesKeeps(cs[..|cs| - 1], j);
    }
  }

  /** A list of complete clauses is sent whole; in particular the filter is idempotent. */
  lemma {:induction false} ValidClausesKeepsComplete(cs: seq<Clause>)
    requires forall j :: 0 <= j < |cs| ==> IsComplete(cs[j])
    ensures ValidClauses(cs) == cs
  {
    if |cs| > 0 {
      ValidClausesKeepsComplete(cs[..|cs| - 1]);
      assert cs == cs[..|cs| - 1] + [cs[|cs| - 1]];
    }
  }

  lemma ValidClausesIdempotent(cs: seq<Clause>)
    ensures ValidClauses(ValidClauses(cs)) == ValidClauses(cs)
  {
    ValidClausesKeepsComplete(ValidClauses(cs));
  }

  /** Seven distinct operators, the default `=` first. */
  lemma OperatorVocabulary(id: int)
    ensures |Operators| == 7
    ensures forall i, j :: 0 <= i < j < |Operators| ==> Operators[i] != Operators[j]
    ensures DefaultClause(id).operator == Operators[0]
  {
  }

  /** The initial list sends no condition at all. */
  lemma InitialSendsNothing()
    ensures ValidClauses(InitialClauses) == []
    ensures CanRemove(InitialClauses) == false
  {
  }

  /* ---------------- the component ---------------- */

  class ManualQueryBuilder {
    var tables: seq<TableInfo>
    var selectedTable: string
    var columns: seq<CatalogColumn>
    var whereClauses: seq<Clause>

    /** The request an effect or a run sends for the selected table. */
    function Request(clauses: seq<WhereClause>, rowLimit: int, orderByColumn: Option<string>,
                     orderDirection: Direction): ExecuteRequest
      reads this
    {
      ExecuteRequest(selectedTable, clauses, Some(rowLimit), orderByColumn, Some(orderDirection))
    }

    constructor ()
      ensures tables == [] && selectedTable == "" && columns == []
      ensures whereClauses == InitialClauses
    {
      tables := [];
      selectedTable := "";
      columns := [];
      whereClauses := InitialClauses;
    }

    /** The mount effect: the table list, or none when the listing failed. */
    method FetchTables(fetched: Result<seq<TableInfo>, Thrown>)
      modifies this
      ensures tables == TablesOrEmpty(fetched)
      ensures selectedTable == old(selectedTable) && columns == old(columns)
      ensures whereClauses == old(whereClauses)
    {
      tables := TablesOrEmpty(fetched);
    }

    /** `handleTableChange`. */
    method HandleTableChange(value: string)
      modifies this
      ensures selectedTable == value
      ensures tables == old(tables) && columns == old(columns) && whereClauses == old(whereClauses)
    {
      selectedTable := value;
    }

    /** The effect that runs when the table, the limit or the order changes.
        With a table selected it reports a start, resets the conditions and
        executes with no condition; the columns are taken only when the
        execution succeeds. Without one it reports a null result and clears
        the columns and the conditions. */
    method FetchColumnsAndInitialData(rowLimit: int, orderByColumn: Option<string>, orderDirection: Direction,
                                      fetchedColumns: Result<seq<CatalogColumn>, Thrown>, db: Database)
      returns (trace: seq<Event>)
      modifies this
      ensures selectedTable == old(selectedTable) && tables == old(tables)
      ensures whereClauses == InitialClauses
      ensures selectedTable != "" ==>
                var outcome := ExecuteOutcome(db, Request([], rowLimit, orderByColumn, orderDirection));
                && trace == [QueryStart, ExecuteCall(Request([], rowLimit, orderByColumn, orderDirection)),
                             QueryResultEvent(Delivered(outcome))]
                && columns == (if outcome.Ok? then ColumnsOrEmpty(fetchedColumns) else old(columns))
      ensures selectedTable == "" ==>
                trace == [QueryResultEvent(QueryResult(None, None))] && columns == []
    {
      if selectedTable != "" {
        trace := [QueryStart];
        whereClauses := InitialClauses;
        var request := Request([], rowLimit, orderByColumn, orderDirection);
        trace := trace + [ExecuteCall(request)];
        var outcome := ExecuteQueryAction(db, request);
        if outcome.Ok? {
          columns := ColumnsOrEmpty(fetchedColumns);
        }
        trace := trace + [QueryResultEvent(Delivered(outcome))];
      } else {
        trace := [QueryResultEvent(QueryResult(None, None))];
        columns := [];
        whereClauses := InitialClauses;
      }
    }

    /** `handleClauseChange`. */
    method HandleClauseChange(id: int, field: ClauseField, v: string)
      modifies this
      ensures whereClauses == ChangeClauses(old(whereClauses), id, field, v)
      ensures tables == old(tables) && selectedTable == old(selectedTable) && columns == old(columns)
    {
      whereClauses := ChangeClauses(whereClauses, id, field, v);
    }

    /** `addClause`; `now` is the `Date.now()` reading used as the new id. */
    method AddClause(now: int)
      modifies this
      ensures whereClauses == AppendClause(old(whereClauses), now)
      ensures tables == old(tables) && selectedTable == old(selectedTable) && columns == old(columns)
    {
      whereClauses := AppendClause(whereClauses, now);
    }

    /** `removeClause`. */
    method RemoveClause(id: int)
      modifies this
      ensures whereClauses == RemoveClauses(old(whereClauses), id)
      ensures tables == old(tables) && selectedTable == old(selectedTable) && columns == old(columns)
    {
      whereClauses := RemoveClauses(whereClauses, id);
    }

    /** `handleRunQuery`: nothing without a selected table; otherwise a start,
        one execution with the complete conditions in list order, and its result. */
    method HandleRunQuery(rowLimit: int, orderByColumn: Option<string>, orderDirection: Direction, db: Database)
      returns (trace: seq<Event>)
      ensures selectedTable == "" ==> trace == []
      ensures selectedTable != "" ==>
                var request := Request(ToWhereClauses(ValidClauses(whereClauses)), rowLimit, orderByColumn, orderDirection);
                trace == [QueryStart, ExecuteCall(request), QueryResultEvent(Delivered(ExecuteOutcome(db, request)))]
    {
      if selectedTable == "" {
        return [];
      }
      trace := [QueryStart];
      var validClauses := ValidClauses(whereClauses);
      var request := Request(ToWhereClauses(validClauses), rowLimit, orderByColumn, orderDirection);
      trace := trace + [ExecuteCall(request)];
      var outcome := ExecuteQueryAction(db, request);
      trace := trace + [QueryResultEvent(Delivered(outcome))];
    }
  }
}
