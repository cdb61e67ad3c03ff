/** The AI query tool of src/components/query-wise/ai-query-tool.tsx:
    `handleGenerateAndRun` validates the request, asks for a translation,
    and executes the translated query, reporting exactly one result once it
    has started. The two flows and the database are inputs: their outcomes
    are given, not computed. */
module AiQuery {
  import opened Common
  import opened Actions
  import opened Callbacks
  import ManualBuilder

  /** The comparison operators the translation may use. */
  datatype Operator = Eq | Ne | Gt | Lt | Ge | Le | Like

  function OperatorText(op: Operator): string
  {
    match op
    case Eq => "=" case Ne => "!=" case Gt => ">" case Lt => "<"
    case Ge => ">=" case Le => "<=" case Like => "LIKE"
  }

  /** A WHERE condition of the translation; numbers are already turned into text. */
  datatype TranslatedClause = TranslatedClause(column: string, operator: Operator, value: string)

  /** What the translation flow returns. */
  datatype Translation = Translation(
    tableName: Option<string>,
    whereClauses: Option<seq<TranslatedClause>>,
    sqlQuery: string,
    missingDataExplanation: Option<string>)

  /** What the validation flow returns. */
  datatype Validation = Validation(isValid: bool, clarificationNeeded: Option<string>)

  const NotSpecificMessage: string := "Query is not specific enough. Please provide more details."
  const NoTableMessage: string := "AI could not determine the table to query."
  /** Stands for the message of the `TypeError` raised by calling
      `onTableChange` when the prop was not supplied; the text is the one V8
      gives, and another runtime or a minified build words it differently. */
  const NotAFunctionMessage: string := "onTableChange is not a function"

  function ToWhereClauses(cs: seq<TranslatedClause>): (r: seq<WhereClause>)
    ensures |r| == |cs|
    ensures forall i :: 0 <= i < |cs| ==>
              r[i] == WhereClause(cs[i].column, OperatorText(cs[i].operator), cs[i].value)
  {
    seq(|cs|, i requires 0 <= i < |cs| => WhereClause(cs[i].column, OperatorText(cs[i].operator), cs[i].value))
  }

  /** The translation's conditions use only the builder's operators, so each
      one contributes exactly one placeholder and one parameter, LIKE values
      wrapped in `%`, just as a manual condition does. */
  lemma TranslatedConditionsLikeManual(cs: seq<TranslatedClause>)
    ensures |Params(ToWhereClauses(cs))| == |cs|
    ensures forall i :: 0 <= i < |cs| ==> ToWhereClauses(cs)[i].operator in ManualBuilder.Operators
    ensures forall i :: 0 <= i < |cs| && '?' !in cs[i].column ==>
              CountChar(ConditionText(ToWhereClauses(cs)[i]), '?') == 1
    ensures forall i :: 0 <= i < |cs| ==>
              Params(ToWhereClauses(cs))[i] == (if cs[i].operator == Like then "%" + cs[i].value + "%" else cs[i].value)
  {
    var r := ToWhereClauses(cs);
    forall i | 0 <= i < |cs|
      ensures r[i].operator in ManualBuilder.Operators
      ensures '?' !in cs[i].column ==> CountChar(ConditionText(r[i]), '?') == 1
      ensures Params(r)[i] == (if cs[i].operator == Like then "%" + cs[i].value + "%" else cs[i].value)
    {
      OperatorsMatchBuilder(cs[i].operator);
      if '?' !in cs[i].column {
        ConditionHasOnePlaceholder(r[i]);
      }
    }
  }

  /** The translation's operators are exactly the ones the manual builder
      offers, each written the same way, and only `Like` reads as LIKE. */
  lemma OperatorsMatchBuilder(op: Operator)
    ensures OperatorText(op) in ManualBuilder.Operators
    ensures forall text :: text in ManualBuilder.Operators ==> exists o :: OperatorText(o) == text
    ensures OperatorText(op) == "LIKE" <==> op == Like
  {
    assert OperatorText(Eq) == ManualBuilder.Operators[0];
    assert OperatorText(Ne) == ManualBuilder.Operators[1];
    assert OperatorText(Gt) == ManualBuilder.Operators[2];
    assert OperatorText(Lt) == ManualBuilder.Operators[3];
    assert OperatorText(Ge) == ManualBuilder.Operators[4];
    assert OperatorText(Le) == ManualBuilder.Operators[5];
    assert OperatorText(Like) == ManualBuilder.Operators[6];
  }

  /** The inputs of one run besides the text fields: the page's current
      limit and order, and what each awaited call settles to. */
  datatype RunInputs = RunInputs(
    rowLimit: int,
    orderByColumn: Option<string>,
    orderDirection: Direction,
    validation: Result<Validation, Thrown>,
    translation: Result<Translation, Thrown>,
    db: Database)

  /** The execution request of a translation that names a table. */
  function TranslatedRequest(t: Translation, rowLimit: int, orderByColumn: Option<string>,
                             orderDirection: Direction): ExecuteRequest
    requires t.tableName.Some?
  {
    ExecuteRequest(
      t.tableName.value,
      if t.whereClauses.Some? then ToWhereClauses(t.whereClauses.value) else [],
      Some(rowLimit), orderByColumn, Some(orderDirection))
  }

  /** What happens after a translation arrives: the calls and the result,
      following the early returns and the `throw` of the handler. */
  function AfterTranslation(t: Translation, inputs: RunInputs, tableChangeProvided: bool): seq<Event>
  {
    if Truthy(t.missingDataExplanation) then
      [QueryResultEvent(QueryResult(None, t.missingDataExplanation))]
    else if !Truthy(t.tableName) then
      [QueryResultEvent(QueryResult(None, Some(NoTableMessage)))]
    else if !tableChangeProvided then
      [QueryResultEvent(QueryResult(None, Some(NotAFunctionMessage)))]
    else
      var request := TranslatedRequest(t, inputs.rowLimit, inputs.orderByColumn, inputs.orderDirection);
      [TableChange, ExecuteCall(request), QueryResultEvent(Delivered(ExecuteOutcome(inputs.db, request)))]
  }

  /** The calls `handleGenerateAndRun` makes, in order. */
  function RunTrace(naturalLanguageQuery: string, expectedOutput: string, inputs: RunInputs,
                    tableChangeProvided: bool): seq<Event>
  {
    if naturalLanguageQuery == "" then []
    else
      [QueryStart, ValidateCall(naturalLanguageQuery, expectedOutput)] +
      match inputs.validation
      case Err(thrown) => [QueryResultEvent(QueryResult(None, MessageOf(thrown)))]
      case Ok(v) =>
        if !v.isValid then [QueryResultEvent(QueryResult(None, Some(NotSpecificMessage)))]
        else
          [GenerateCall(naturalLanguageQuery)] +
          match inputs.translation
          case Err(thrown) => [QueryResultEvent(QueryResult(None, MessageOf(thrown)))]
          case Ok(t) => AfterTranslation(t, inputs, tableChangeProvided)
  }

  /** The generated SQL shown after the run. */
  function SqlAfter(before: string, naturalLanguageQuery: string, inputs: RunInputs): string
  {
    if naturalLanguageQuery == "" then before
    else if inputs.validation.Ok? && inputs.validation.value.isValid && inputs.translation.Ok? then
      inputs.translation.value.sqlQuery
    else ""
  }

  class AiQueryTool {
    var naturalLanguageQuery: string
    var expectedOutput: string
    var generatedSql: string
    /** Whether the parent supplied the `onTableChange` prop. */
    const tableChangeProvided: bool

    constructor (tableChangeProvided: bool)
      ensures naturalLanguageQuery == "" && expectedOutput == "" && generatedSql == ""
      ensures this.tableChangeProvided == tableChangeProvided
    {
      naturalLanguageQuery := "";
      expectedOutput := "";
      generatedSql := "";
      this.tableChangeProvided := tableChangeProvided;
    }

    /** The request text area. */
    method SetNaturalLanguageQuery(text: string)
      modifies this
      ensures naturalLanguageQuery == text
      ensures expectedOutput == old(expectedOutput) && generatedSql == old(generatedSql)
    {
      naturalLanguageQuery := text;
    }

    /** The expected-output text area. */
    method SetExpectedOutput(text: string)
      modifies this
      ensures expectedOutput == text
      ensures naturalLanguageQuery == old(naturalLanguageQuery) && generatedSql == old(generatedSql)
    {
      expectedOutput := text;
    }

    /** The part of `handleGenerateAndRun` after the translation arrived. */
    method RunTranslation(t: Translation, inputs: RunInputs) returns (trace: seq<Event>)
      ensures trace == AfterTranslation(t, inputs, tableChangeProvided)
    {
      if Truthy(t.missingDataExplanation) {
        return [QueryResultEvent(QueryResult(None, t.missingDataExplanation))];
      }
      if !Truthy(t.tableName) {
        return [QueryResultEvent(QueryResult(None, Some(NoTableMessage)))];
      }
      if !tableChangeProvided {
        return [QueryResultEvent(QueryResult(None, Some(NotAFunctionMessage)))];
      }
      trace := [TableChange];
      var request := TranslatedRequest(t, inputs.rowLimit, inputs.orderByColumn, inputs.orderDirection);
      trace := trace + [ExecuteCall(request)];
      var outcome := ExecuteQueryAction(inputs.db, request);
      trace := trace + [QueryResultEvent(Delivered(outcome))];
    }

    /** `handleGenerateAndRun`. */
    method HandleGenerateAndRun(inputs: RunInputs) returns (trace: seq<Event>)
      modifies this
      ensures trace == RunTrace(naturalLanguageQuery, expectedOutput, inputs, tableChangeProvided)
      ensures generatedSql == SqlAfter(old(generatedSql), naturalLanguageQuery, inputs)
      ensures naturalLanguageQuery == old(naturalLanguageQuery) && expectedOutput == old(expectedOutput)
    {
      if naturalLanguageQuery == "" {
        return [];
      }
      trace := [QueryStart];
      generatedSql := "";
      trace := trace + [ValidateCall(naturalLanguageQuery, expectedOutput)];
      match inputs.validation
      case Err(thrown) =>
        trace := trace + [QueryResultEvent(QueryResult(None, MessageOf(thrown)))];
      case Ok(validation) =>
        if !validation.isValid {
          trace := trace + [QueryResultEvent(QueryResult(None, Some(NotSpecificMessage)))];
          return;
        }
        trace := trace + [GenerateCall(naturalLanguageQuery)];
        match inputs.translation
        case Err(thrown) =>
          trace := trace + [QueryResultEvent(QueryResult(None, MessageOf(thrown)))];
        case Ok(t) =>
          if t.sqlQuery != "" {
            generatedSql := t.sqlQuery;
          }
          var rest := RunTranslation(t, inputs);
          trace := trace + rest;
    }
  }

  /* ---------------- properties of a run ---------------- */

  /** An empty request calls nothing, reports nothing and keeps the shown SQL. */
  lemma EmptyRequestDoesNothing(sql: string, expectedOutput: string, inputs: RunInputs, provided: bool)
    ensures RunTrace("", expectedOutput, inputs, provided) == []
    ensures SqlAfter(sql, "", inputs) == sql
  {
  }

  /** Every tail after a translation reports exactly one result, as its last event. */
  lemma AfterTranslationReportsOnce(t: Translation, inputs: RunInputs, provided: bool)
    ensures var tail := AfterTranslation(t, inputs, provided);
            |tail| > 0 && tail[|tail| - 1].QueryResultEvent? && ResultCount(tail) == 1
  {
    var tail := AfterTranslation(t, inputs, provided);
    if |tail| == 3 {
      assert tail[..2][..1] == [TableChange] && ResultCount([TableChange]) == 0;
      assert ResultCount(tail[..2]) == 0;
    } else {
      assert ResultCount(tail[..0]) == 0;
    }
  }

  /** A started run reports exactly one result, and does so last; it begins
      with the start notification. */
  lemma RunReportsOnce(naturalLanguageQuery: string, expectedOutput: string, inputs: RunInputs, provided: bool)
    requires naturalLanguageQuery != ""
    ensures var trace := RunTrace(naturalLanguageQuery, expectedOutput, inputs, provided);
            && |trace| >= 3 && trace[0] == QueryStart
            && trace[|trace| - 1].QueryResultEvent?
            && ResultCount(trace) == 1
  {
    var head := [QueryStart, ValidateCall(naturalLanguageQuery, expectedOutput)];
    assert ResultCount(head) == 0 by {
      assert head[..1] == [QueryStart];
    }
    if inputs.validation.Ok? && inputs.validation.value.isValid {
      var gen := [GenerateCall(naturalLanguageQuery)];
      var rest := match inputs.translation
                  case Err(thrown) => [QueryResultEvent(QueryResult(None, MessageOf(thrown)))]
                  case Ok(t) => AfterTranslation(t, inputs, provided);
      if inputs.translation.Ok? {
        AfterTranslationReportsOnce(inputs.translation.value, inputs, provided);
      }
      ResultCountAppend(gen, rest);
      ResultCountAppend(head, gen + rest);
    } else {
      var rest := match inputs.validation
                  case Err(thrown) => [QueryResultEvent(QueryResult(None, MessageOf(thrown)))]
                  case Ok(_) => [QueryResultEvent(QueryResult(None, Some(NotSpecificMessage)))];
      ResultCountAppend(head, rest);
    }
  }

  /** A thrown validation failure ends the run with its message and no data,
      before anything is generated or executed. */
  lemma ValidationFailureStops(naturalLanguageQuery: string, expectedOutput: string, inputs: RunInputs,
                               provided: bool)
    requires naturalLanguageQuery != "" && inputs.validation.Err?
    ensures RunTrace(naturalLanguageQuery, expectedOutput, inputs, provided) ==
              [QueryStart, ValidateCall(naturalLanguageQuery, expectedOutput),
               QueryResultEvent(QueryResult(None, MessageOf(inputs.validation.error)))]
    ensures forall sql :: SqlAfter(sql, naturalLanguageQuery, inputs) == ""
  {
  }

  /** An insufficient request is reported with the fixed message, and nothing
      is generated or executed. */
  lemma InvalidRequestStops(naturalLanguageQuery: string, expectedOutput: string, inputs: RunInputs,
                            provided: bool)
    requires naturalLanguageQuery != "" && inputs.validation.Ok? && !inputs.validation.value.isValid
    ensures var trace := RunTrace(naturalLanguageQuery, expectedOutput, inputs, provided);
            && trace == [QueryStart, ValidateCall(naturalLanguageQuery, expectedOutput),
                         QueryResultEvent(QueryResult(None, Some(NotSpecificMessage)))]
            && !Executes(trace)
  {
  }

  /** A thrown translation failure ends the run with its message and no data,
      after the validation and generation calls and before any execution. */
  lemma GenerationFailureStops(naturalLanguageQuery: string, expectedOutput: string, inputs: RunInputs,
                               provided: bool)
    requires naturalLanguageQuery != "" && inputs.validation.Ok? && inputs.validation.value.isValid
    requires inputs.translation.Err?
    ensures var trace := RunTrace(naturalLanguageQuery, expectedOutput, inputs, provided);
            && trace == [QueryStart, ValidateCall(naturalLanguageQuery, expectedOutput),
                         GenerateCall(naturalLanguageQuery),
                         QueryResultEvent(QueryResult(None, MessageOf(inputs.translation.error)))]
            && !Executes(trace)
    ensures forall sql :: SqlAfter(sql, naturalLanguageQuery, inputs) == ""
  {
  }

  /** The trace of a run that got a translation `t`. */
  lemma TranslatedTrace(naturalLanguageQuery: string, expectedOutput: string, inputs: RunInputs,
                        provided: bool)
    requires naturalLanguageQuery != "" && inputs.validation.Ok? && inputs.validation.value.isValid
    requires inputs.translation.Ok?
    ensures RunTrace(naturalLanguageQuery, expectedOutput, inputs, provided) ==
              [QueryStart, ValidateCall(naturalLanguageQuery, expectedOutput), GenerateCall(naturalLanguageQuery)]
              + AfterTranslation(inputs.translation.value, inputs, provided)
    ensures forall sql :: SqlAfter(sql, naturalLanguageQuery, inputs) == inputs.translation.value.sqlQuery
  {
  }

  /** A non-empty explanation is reported verbatim, even when a table was
      also named, and nothing is executed. */
  lemma ExplanationWins(t: Translation, inputs: RunInputs, provided: bool)
    requires Truthy(t.missingDataExplanation)
    ensures AfterTranslation(t, inputs, provided) ==
              [QueryResultEvent(QueryResult(None, Some(t.missingDataExplanation.value)))]
  {
  }

  /** With no explanation and no table, the fixed no-table error is reported. */
  lemma NoTableReported(t: Translation, inputs: RunInputs, provided: bool)
    requires !Truthy(t.missingDataExplanation) && !Truthy(t.tableName)
    ensures AfterTranslation(t, inputs, provided) == [QueryResultEvent(QueryResult(None, Some(NoTableMessage)))]
  {
  }

  /** Only the last branch executes: a run executes exactly when the request
      is non-empty, validated, translated with a table and no explanation, and
      the table-change callback is there to call. */
  lemma {:induction false} ExecutesOnlyWhenTranslated(naturalLanguageQuery: string, expectedOutput: string,
                                                      inputs: RunInputs, provided: bool)
    ensures Executes(RunTrace(naturalLanguageQuery, expectedOutput, inputs, provided)) <==>
              && naturalLanguageQuery != ""
              && inputs.validation.Ok? && inputs.validation.value.isValid
              && inputs.translation.Ok?
              && !Truthy(inputs.translation.value.missingDataExplanation)
              && Truthy(inputs.translation.value.tableName)
              && provided
  {
    var trace := RunTrace(naturalLanguageQuery, expectedOutput, inputs, provided);
    if naturalLanguageQuery != "" && inputs.validation.Ok? && inputs.validation.value.isValid
       && inputs.translation.Ok? {
      var t := inputs.translation.value;
      var head := [QueryStart, ValidateCall(naturalLanguageQuery, expectedOutput), GenerateCall(naturalLanguageQuery)];
      var tail := AfterTranslation(t, inputs, provided);
      assert trace == head + tail;
      if !Truthy(t.missingDataExplanation) && Truthy(t.tableName) && provided {
        assert trace[4].ExecuteCall?;
      } else {
        assert |tail| == 1 && !tail[0].ExecuteCall?;
        assert forall i :: 0 <= i < |trace| ==> !trace[i].ExecuteCall?;
      }
    } else {
      assert forall i :: 0 <= i < |trace| ==> !trace[i].ExecuteCall?;
    }
  }

  /** With the callback there, a complete translation resets the page's
      limit and order, then executes on the named table with its conditions
      (none when it gave none) and the current limit and order, and reports
      what the execution settled to. */
  lemma ExecutesTranslation(t: Translation, inputs: RunInputs)
    requires !Truthy(t.missingDataExplanation) && Truthy(t.tableName)
    ensures var request := ExecuteRequest(
              t.tableName.value,
              if t.whereClauses.Some? then ToWhereClauses(t.whereClauses.value) else [],
              Some(inputs.rowLimit), inputs.orderByColumn, Some(inputs.orderDirection));
            AfterTranslation(t, inputs, true) ==
              [TableChange, ExecuteCall(request), QueryResultEvent(Delivered(ExecuteOutcome(inputs.db, request)))]
  {
  }

  /** As the page is wired, the callback is missing: the call raises a
      `TypeError`, which is reported in place of any data, so no translated
      query is ever executed. */
  lemma MissingCallbackNeverExecutes(naturalLanguageQuery: string, expectedOutput: string, inputs: RunInputs)
    ensures !Executes(RunTrace(naturalLanguageQuery, expectedOutput, inputs, false))
    ensures inputs.translation.Ok? && !Truthy(inputs.translation.value.missingDataExplanation) &&
            Truthy(inputs.translation.value.tableName) ==>
              AfterTranslation(inputs.translation.value, inputs, false) ==
                [QueryResultEvent(QueryResult(None, Some(NotAFunctionMessage)))]
  {
    ExecutesOnlyWhenTranslated(naturalLanguageQuery, expectedOutput, inputs, false);
  }

  /** The shown SQL after a started run is either cleared or the translation's. */
  lemma ShownSql(before: string, naturalLanguageQuery: string, inputs: RunInputs)
    requires naturalLanguageQuery != ""
    ensures var sql := SqlAfter(before, naturalLanguageQuery, inputs);
            sql == "" || (inputs.translation.Ok? && sql == inputs.translation.value.sqlQuery)
  {
  }
}
