/** The results panel of src/components/query-wise/data-display.tsx: which
    content is shown for a (result, loading, error) triple, the table's header
    labels and cell texts, and when the download button appears. */
module DataDisplay {
  import opened Common

  /** `columns`: the keys of the first row; none for a null or empty result. */
  function Columns(queryResult: Option<seq<Row>>): seq<string>
  {
    if queryResult.Some? && |queryResult.value| > 0 then Keys(queryResult.value[0]) else []
  }

  /** `row[col]`: the value of the first field with that key, `undefined` when none has it. */
  function Lookup(row: Row, key: string): (v: Option<Value>)
    ensures v.Some? <==> key in Keys(row)
    ensures v.Some? ==> exists i :: 0 <= i < |row| && row[i].key == key && row[i].value == v.value &&
                                    forall j :: 0 <= j < i ==> row[j].key != key
  {
    if |row| == 0 then None
    else if row[0].key == key then (assert Keys(row)[0] == key; Some(row[0].value))
    else (assert Keys(row) == [row[0].key] + Keys(row[1..]); Lookup(row[1..], key))
  }

  /* ---------------- text of headers and cells ---------------- */

  /** `toUpperCase` on one character, for the ASCII letters. */
  function UpperChar(ch: char): char
  {
    if 'a' <= ch <= 'z' then (ch as int - 'a' as int + 'A' as int) as char else ch
  }

  /** `col.replace(/_/g, ' ').toUpperCase()`. */
  function HeaderLabel(col: string): (shown: string)
    ensures |shown| == |col|
    ensures forall i :: 0 <= i < |col| ==> shown[i] != '_' && !('a' <= shown[i] <= 'z')
  {
    seq(|col|, i requires 0 <= i < |col| => UpperChar(if col[i] == '_' then ' ' else col[i]))
  }

  /** Relabelling a label changes nothing: a header label is already in label form. */
  lemma HeaderLabelIdempotent(col: string)
    ensures HeaderLabel(HeaderLabel(col)) == HeaderLabel(col)
  {
    var once := HeaderLabel(col);
    forall i | 0 <= i < |col|
      ensures HeaderLabel(once)[i] == once[i]
    {
      assert once[i] != '_' && !('a' <= once[i] <= 'z');
    }
  }

  /** Each character of a header label comes from the column name: an
      underscore becomes a space, a lower-case letter its capital, and every
      other character stays. */
  lemma HeaderLabelChars(col: string, i: nat)
    requires i < |col|
    ensures col[i] == '_' ==> HeaderLabel(col)[i] == ' '
    ensures 'a' <= col[i] <= 'z' ==> HeaderLabel(col)[i] as int == col[i] as int - 32
    ensures col[i] != '_' && !('a' <= col[i] <= 'z') ==> HeaderLabel(col)[i] == col[i]
  {
  }

  /** `String(n)` for a decimal number given in hundredths: the integer part,
      then the fraction without trailing zeros, and no point for a whole number. */
  function DecimalText(hundredths: int): string
  {
    var magnitude := if hundredths < 0 then -hundredths else hundredths;
    var whole := magnitude / 100;
    var fraction := magnitude % 100;
    (if hundredths < 0 then "-" else "")
      + NatToString(whole)
      + (if fraction == 0 then ""
         else if fraction % 10 == 0 then "." + [DigitChar(fraction / 10)]
         else "." + [DigitChar(fraction / 10), DigitChar(fraction % 10)])
  }

  /** A whole decimal prints exactly as the integer with that value. */
  lemma WholeDecimalText(n: int)
    ensures DecimalText(100 * n) == IntToString(n)
  {
    var m := if n < 0 then -n else n;
    assert (if 100 * n < 0 then -(100 * n) else 100 * n) == 100 * m;
    assert (100 * m) / 100 == m && (100 * m) % 100 == 0;
    assert DecimalText(100 * n) == (if n < 0 then "-" else "") + NatToString(m) + "";
  }

  /** A fractional decimal prints as its sign, its integer part, a point and
      one or two fraction digits, the last of them non-zero; reading the
      digits back gives the magnitude in hundredths. */
  lemma FractionalDecimalText(hundredths: int)
    requires hundredths % 100 != 0
    ensures var m := if hundredths < 0 then -hundredths else hundredths;
            var sign := if hundredths < 0 then "-" else "";
            var w := NatToString(m / 100);
            var t := DecimalText(hundredths);
            var p := |sign| + |w|;
            && (|t| == p + 2 || |t| == p + 3)
            && t[..|sign|] == sign
            && t[|sign|..p] == w
            && t[p] == '.'
            && (forall i :: p < i < |t| ==> IsDigit(t[i]))
            && t[|t| - 1] != '0'
            && DigitsValue(w) * 100 + 10 * DigitValue(t[p + 1])
               + (if |t| == p + 3 then DigitValue(t[p + 2]) else 0) == m
  {
    var m := if hundredths < 0 then -hundredths else hundredths;
    var sign := if hundredths < 0 then "-" else "";
    var w := NatToString(m / 100);
    var f := m % 100;
    assert f != 0;
    var tail := if f % 10 == 0 then "." + [DigitChar(f / 10)]
                else "." + [DigitChar(f / 10), DigitChar(f % 10)];
    var t := DecimalText(hundredths);
    assert t == sign + w + tail;
    NatToStringRoundTrip(m / 100);
    DigitCharValue(f / 10);
    DigitCharValue(f % 10);
    assert m == 100 * (m / 100) + 10 * (f / 10) + f % 10;
  }

  /** `String(row[col])`. */
  function CellText(v: Option<Value>): string
  {
    match v
    case None => "undefined"
    case Some(Null) => "null"
    case Some(Int(i)) => IntToString(i)
    case Some(Decimal(h)) => DecimalText(h)
    case Some(Text(s)) => s
  }

  /* ---------------- the panel ---------------- */

  /** What `renderContent` returns. */
  datatype Panel =
    | Skeleton(lines: nat)
    | ErrorPanel(message: string)
    | Placeholder                     // "Run a query to see the results here."
    | NoRows                          // "Query executed successfully, but returned no results."
    | TablePanel(headers: seq<string>, body: seq<seq<string>>)

  /** `renderContent`: the first of loading, error, no result, empty result
      that holds decides the panel; otherwise the table. */
  function RenderContent(queryResult: Option<seq<Row>>, isLoading: bool, error: Option<string>): Panel
  {
    if isLoading then Skeleton(5)
    else if Truthy(error) then ErrorPanel(error.value)
    else if queryResult.None? then Placeholder
    else if |queryResult.value| == 0 then NoRows
    else
      var rows := queryResult.value;
      var cols := Columns(queryResult);
      TablePanel(
        seq(|cols|, j requires 0 <= j < |cols| => HeaderLabel(cols[j])),
        seq(|rows|, i requires 0 <= i < |rows| =>
          seq(|cols|, j requires 0 <= j < |cols| => CellText(Lookup(rows[i], cols[j])))))
  }

  /** The panels are exclusive and chosen in the order loading, error, no
      result, empty result, table. */
  lemma PanelPrecedence(queryResult: Option<seq<Row>>, isLoading: bool, error: Option<string>)
    ensures var p := RenderContent(queryResult, isLoading, error);
            && (p.Skeleton? <==> isLoading)
            && (p.ErrorPanel? <==> !isLoading && Truthy(error))
            && (p.ErrorPanel? ==> p.message == error.value)
            && (p.Placeholder? <==> !isLoading && !Truthy(error) && queryResult.None?)
            && (p.NoRows? <==> !isLoading && !Truthy(error) && queryResult == Some([]))
            && (p.TablePanel? <==> !isLoading && !Truthy(error) && queryResult.Some? && |queryResult.value| > 0)
  {
  }

  /** The table has a header per column of the first row and, for every result
      row, one cell per such column holding that row's value for it. */
  lemma TableShape(queryResult: Option<seq<Row>>, error: Option<string>)
    requires !Truthy(error) && queryResult.Some? && |queryResult.value| > 0
    ensures var p := RenderContent(queryResult, false, error);
            var rows := queryResult.value;
            var cols := Keys(rows[0]);
            && p.TablePanel?
            && |p.headers| == |cols|
            && (forall j :: 0 <= j < |cols| ==> p.headers[j] == HeaderLabel(cols[j]))
            && |p.body| == |rows|
            && (forall i :: 0 <= i < |rows| ==> |p.body[i]| == |cols|)
            && (forall i, j :: 0 <= i < |rows| && 0 <= j < |cols| ==>
                  p.body[i][j] == CellText(Lookup(rows[i], cols[j])))
  {
  }

  /* ---------------- download ---------------- */

  /** The download button is shown for a non-empty result only. */
  predicate ShowDownload(queryResult: Option<seq<Row>>)
  {
    queryResult.Some? && |queryResult.value| > 0
  }

  /** `handleDownload`: the rows written to the workbook, or nothing for a null result. */
  function DownloadRows(queryResult: Option<seq<Row>>): (exported: Option<seq<Row>>)
    ensures queryResult.None? ==> exported.None?
    ensures queryResult.Some? ==> exported == queryResult
  {
    queryResult
  }

  /** Whenever the table is on screen the download button is too, and it
      exports every displayed row. */
  lemma TableOffersDownload(queryResult: Option<seq<Row>>, isLoading: bool, error: Option<string>)
    ensures RenderContent(queryResult, isLoading, error).TablePanel? ==>
              ShowDownload(queryResult) &&
              DownloadRows(queryResult) == Some(queryResult.value) &&
              |RenderContent(queryResult, isLoading, error).body| == |DownloadRows(queryResult).value|
  {
  }
}
