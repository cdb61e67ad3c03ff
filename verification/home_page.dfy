/** The page of src/app/page.tsx: the shared query state (result, loading
    flag, error, row limit, order column and direction) and the callbacks the
    query components report through. */
module HomePage {
  import opened Common
  import opened Actions
  import opened Callbacks
  import DataDisplay

  const InitialRowLimit: int := 100

  /** The order columns offered: the keys of the first result row. */
  function OrderColumnChoices(queryResult: Option<seq<Row>>): seq<string>
  {
    DataDisplay.Columns(queryResult)
  }

  /** When the order column is set and there are rows, it names a key of the first row. */
  predicate OrderInResult(queryResult: Option<seq<Row>>, orderByColumn: Option<string>)
  {
    Truthy(orderByColumn) && queryResult.Some? && |queryResult.value| > 0 ==>
      orderByColumn.value in OrderColumnChoices(queryResult)
  }

  /** The page clears the order column exactly when it is set, the new rows
      are not empty, and the first row lacks that key. */
  predicate ClearsOrder(data: seq<Row>, orderByColumn: Option<string>)
  {
    Truthy(orderByColumn) && |data| > 0 && orderByColumn.value !in Keys(data[0])
  }

  /** The order column the page keeps after receiving `data`. */
  function OrderAfterData(data: seq<Row>, orderByColumn: Option<string>): Option<string>
  {
    if ClearsOrder(data, orderByColumn) then None else orderByColumn
  }

  /** Whatever order column was chosen, the one kept after new data is either
      unset or still a column of that data. */
  lemma OrderAfterDataInResult(data: seq<Row>, orderByColumn: Option<string>)
    ensures OrderInResult(Some(data), OrderAfterData(data, orderByColumn))
    ensures OrderAfterData(data, orderByColumn) == orderByColumn ||
            OrderAfterData(data, orderByColumn) == None
  {
  }

  /** A kept order column is one the new data has (or there is no row to check). */
  lemma OrderKeptIffPresent(data: seq<Row>, col: string)
    requires col != ""
    ensures OrderAfterData(data, Some(col)) == Some(col) <==> |data| == 0 || col in Keys(data[0])
  {
  }

  /** The stored row limit for an edit to `n`: `Math.max(1, n)`. */
  function ClampRowLimit(n: int): (limit: int)
    ensures limit >= 1
    ensures limit >= n
    ensures n >= 1 ==> limit == n
    ensures n < 1 ==> limit == 1
  {
    if n < 1 then 1 else n
  }

  class Home {
    var queryResult: Option<seq<Row>>
    var isLoading: bool
    var error: Option<string>
    var rowLimit: int
    var orderByColumn: Option<string>
    var orderDirection: Direction

    /** The invariant the handlers keep: a positive row limit, and an order
        column that, when set, belongs to the displayed rows. */
    predicate Valid()
      reads this
    {
      rowLimit >= 1 && OrderInResult(queryResult, orderByColumn)
    }

    constructor ()
      ensures Valid()
      ensures queryResult == None && !isLoading && error == None
      ensures rowLimit == InitialRowLimit && orderByColumn == None && orderDirection == Asc
    {
      queryResult := None;
      isLoading := false;
      error := None;
      rowLimit := InitialRowLimit;
      orderByColumn := None;
      orderDirection := Asc;
    }

    /** `handleQueryStart`: loading, no error; the previous rows stay. */
    method HandleQueryStart()
      requires Valid()
      modifies this
      ensures Valid()
      ensures isLoading && error == None
      ensures queryResult == old(queryResult) && rowLimit == old(rowLimit)
      ensures orderByColumn == old(orderByColumn) && orderDirection == old(orderDirection)
    {
      isLoading := true;
      error := None;
    }

    /** `handleQueryResult`: an error (non-empty) replaces the rows by none; else
        present data replaces the rows, clears the error, and drops an order
        column the new rows lack; a result with neither changes only the
        loading flag, which is cleared in every case. */
    method HandleQueryResult(result: QueryResult)
      requires Valid()
      modifies this
      ensures Valid()
      ensures !isLoading
      ensures rowLimit == old(rowLimit) && orderDirection == old(orderDirection)
      ensures Truthy(result.error) ==>
                error == result.error && queryResult == None && orderByColumn == old(orderByColumn)
      ensures !Truthy(result.error) && result.data.Some? ==>
                && queryResult == result.data && error == None
                && orderByColumn == OrderAfterData(result.data.value, old(orderByColumn))
      ensures !Truthy(result.error) && result.data.None? ==>
                queryResult == old(queryResult) && error == old(error) && orderByColumn == old(orderByColumn)
    {
      if Truthy(result.error) {
        error := result.error;
        queryResult := None;
      } else if result.data.Some? {
        var data := result.data.value;
        if Truthy(orderByColumn) && |data| > 0 && orderByColumn.value !in Keys(data[0]) {
          orderByColumn := None;
        }
        queryResult := result.data;
        error := None;
      }
      isLoading := false;
    }

    /** `handleTableChange`: back to the initial limit and order. */
    method HandleTableChange()
      requires Valid()
      modifies this
      ensures Valid()
      ensures rowLimit == InitialRowLimit && orderByColumn == None && orderDirection == Asc
      ensures queryResult == old(queryResult) && isLoading == old(isLoading) && error == old(error)
    {
      rowLimit := InitialRowLimit;
      orderByColumn := None;
      orderDirection := Asc;
    }

    /** The row-limit input's change handler. */
    method SetRowLimit(n: int)
      requires Valid()
      modifies this
      ensures Valid()
      ensures rowLimit == ClampRowLimit(n)
      ensures queryResult == old(queryResult) && isLoading == old(isLoading) && error == old(error)
      ensures orderByColumn == old(orderByColumn) && orderDirection == old(orderDirection)
    {
      rowLimit := ClampRowLimit(n);
    }

    /** The order-column picker, which offers only `OrderColumnChoices(queryResult)`. */
    method SetOrderByColumn(col: string)
      requires Valid()
      requires col in OrderColumnChoices(queryResult)
      modifies this
      ensures Valid()
      ensures orderByColumn == Some(col)
      ensures queryResult == old(queryResult) && isLoading == old(isLoading) && error == old(error)
      ensures rowLimit == old(rowLimit) && orderDirection == old(orderDirection)
    {
      orderByColumn := Some(col);
    }

    /** The direction picker. */
    method SetOrderDirection(dir: Direction)
      requires Valid()
      modifies this
      ensures Valid()
      ensures orderDirection == dir
      ensures queryResult == old(queryResult) && isLoading == old(isLoading) && error == old(error)
      ensures rowLimit == old(rowLimit) && orderByColumn == old(orderByColumn)
    {
      orderDirection := dir;
    }
  }
}
