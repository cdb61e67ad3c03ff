/** What the query components hand to the page through their callback props
    (`onQueryStart`, `onQueryResult`, `onTableChange`), and the calls they make
    to the server actions. A component handler is modelled as returning the
    sequence of these calls, in the order it makes them. */
module Callbacks {
  import opened Common
  import opened Actions

  /** The argument of `onQueryResult`: `data` and `error` are each absent
      (`undefined`/`null`) or present. */
  datatype QueryResult = QueryResult(data: Option<seq<Row>>, error: Option<string>)

  datatype Event =
    | QueryStart                                    // onQueryStart()
    | QueryResultEvent(result: QueryResult)         // onQueryResult(result)
    | TableChange                                   // onTableChange()
    | ExecuteCall(request: ExecuteRequest)          // executeQueryAction(...)
    | ValidateCall(naturalLanguageQuery: string, expectedOutput: string)  // validateQueryAction(...)
    | GenerateCall(naturalLanguageQuery: string)    // generateSqlAction(...)

  /** `e.message` of a caught value: an `Error` carries one, any other thrown
      value yields `undefined`. */
  function MessageOf(t: Thrown): (m: Option<string>)
    ensures t.ErrorObject? <==> m.Some?
    ensures t.ErrorObject? ==> m.value == t.message
  {
    match t
    case ErrorObject(message) => Some(message)
    case OtherValue => None
  }

  /** What a component reports once an `executeQueryAction` call settles:
      `{ data }` on success, `{ error: e.message }` on failure. */
  function Delivered(outcome: Result<seq<Row>, string>): (r: QueryResult)
    ensures outcome.Ok? <==> r.data.Some?
    ensures outcome.Ok? ==> r == QueryResult(Some(outcome.value), None)
    ensures outcome.Err? ==> r == QueryResult(None, Some(outcome.error))
  {
    match outcome
    case Ok(rows) => QueryResult(Some(rows), None)
    case Err(message) => QueryResult(None, Some(message))
  }

  /** A settled `executeQueryAction` always lands in one of the page's two
      live branches: a failure arrives as a truthy `error` (the rethrown
      message is never empty), a success as its rows with no error. */
  lemma DeliveredSettlesPage(db: Database, req: ExecuteRequest)
    ensures Truthy(Delivered(ExecuteOutcome(db, req)).error) <==> ExecuteOutcome(db, req).Err?
    ensures ExecuteOutcome(db, req).Err? ==>
              Delivered(ExecuteOutcome(db, req)).error == Some(ExecuteOutcome(db, req).error)
    ensures !Truthy(Delivered(ExecuteOutcome(db, req)).error) ==>
              Delivered(ExecuteOutcome(db, req)).data == Some(ExecuteOutcome(db, req).value)
  {
  }

  /** A flow failure reported as `{ error: e.message }` shows as an error only
      when an `Error` with a non-empty message was thrown; any other thrown
      value reports neither data nor error. */
  lemma FlowFailureShown(t: Thrown)
    ensures Truthy(QueryResult(None, MessageOf(t)).error) <==> t.ErrorObject? && t.message != ""
    ensures t.OtherValue? ==> QueryResult(None, MessageOf(t)) == QueryResult(None, None)
  {
  }

  /** Number of `onQueryResult` calls in a trace. */
  function ResultCount(trace: seq<Event>): nat
  {
    if |trace| == 0 then 0
    else ResultCount(trace[..|trace| - 1]) + (if trace[|trace| - 1].QueryResultEvent? then 1 else 0)
  }

  /** Whether a trace calls `executeQueryAction` at all. */
  predicate Executes(trace: seq<Event>)
  {
    exists i :: 0 <= i < |trace| && trace[i].ExecuteCall?
  }

  lemma {:induction false} ResultCountAppend(a: seq<Event>, b: seq<Event>)
    ensures ResultCount(a + b) == ResultCount(a) + ResultCount(b)
  {
    if |b| > 0 {
      var b' := b[..|b| - 1];
      assert (a + b)[..|a + b| - 1] == a + b';
      ResultCountAppend(a, b');
    } else {
      assert a + b == a;
    }
  }
}
