/**
 * `convertToCSV`: a header line of the first record's keys, then one line
 * per record whose fields are the stringified values with every `"`
 * doubled, each wrapped in quotes; lines are joined with LF.
 */
module Csv {
  import opened Strings
  import opened Records

  /** `parts.join(sep)`. */
  function Join(parts: seq<string>, sep: string): string
  {
    if |parts| == 0 then []
    else if |parts| == 1 then parts[0]
    else parts[0] + sep + Join(parts[1..], sep)
  }

  /**
   * Joining one more part adds the separator and that part, so the joined
   * text is the parts in order with one separator between neighbours.
   */
  lemma {:induction false} JoinSnoc(parts: seq<string>, x: string, sep: string)
    requires parts != []
    ensures Join(parts + [x], sep) == Join(parts, sep) + sep + x
  {
    if |parts| == 1 {
      assert (parts + [x])[1..] == [x];
    } else {
      assert (parts + [x])[1..] == parts[1..] + [x];
      JoinSnoc(parts[1..], x, sep);
    }
  }

  /** `s.replace(/"/g, '""')`. */
  function DoubleQuotes(s: string): (r: string)
    ensures |r| >= |s|
  {
    if s == [] then []
    else (if s[0] == '"' then "\"\"" else [s[0]]) + DoubleQuotes(s[1..])
  }

  /** Escaping adds one character per quote and leaves a text without quotes unchanged. */
  lemma {:induction false} DoubleQuotesGrowth(s: string)
    ensures |DoubleQuotes(s)| == |s| + multiset(s)['"']
    ensures '"' !in s ==> DoubleQuotes(s) == s
  {
    if s != [] {
      assert s == [s[0]] + s[1..];
      DoubleQuotesGrowth(s[1..]);
    }
  }

  /** One emitted field: the escaped text between two quotes. */
  function QuoteField(s: string): (r: string)
    ensures |r| >= |s| + 2 && r[0] == '"' && r[|r| - 1] == '"'
  {
    "\"" + DoubleQuotes(s) + "\""
  }

  /** The fields of one data line: `headers.map(h => quote('' + row[h]))`. */
  function RowFields(headers: seq<string>, row: Record): seq<string>
  {
    seq(|headers|, i requires 0 <= i < |headers| => QuoteField(Stringify(Get(row, headers[i]))))
  }

  /** One line per record, each the joined fields of that record under `headers`. */
  function DataLines(headers: seq<string>, rows: seq<Record>): (lines: seq<string>)
    ensures |lines| == |rows|
  {
    seq(|rows|, i requires 0 <= i < |rows| => Join(RowFields(headers, rows[i]), ","))
  }

  lemma DataLinesSnoc(headers: seq<string>, rows: seq<Record>, row: Record)
    ensures DataLines(headers, rows + [row]) == DataLines(headers, rows) + [Join(RowFields(headers, row), ",")]
  {
  }

  /** The lines `convertToCSV` collects for a non-empty list. */
  function CsvLines(data: seq<Record>): (lines: seq<string>)
    requires data != []
    ensures |lines| == |data| + 1
  {
    var headers := Keys(data[0]);
    [Join(headers, ",")] + DataLines(headers, data)
  }

  /** The whole CSV text. */
  function CsvText(data: seq<Record>): string
  {
    if data == [] then "" else Join(CsvLines(data), "\n")
  }

  /** The serialiser as the source runs it: lines pushed one per record, then joined. */
  method ConvertToCsv(data: seq<Record>) returns (csv: string)
    ensures csv == CsvText(data)
  {
    if |data| == 0 {
      return "";
    }
    var headers := Keys(data[0]);
    var csvRows := [Join(headers, ",")];
    for i := 0 to |data|
      invariant csvRows == [Join(headers, ",")] + DataLines(headers, data[..i])
    {
      var values := RowFields(headers, data[i]);
      DataLinesSnoc(headers, data[..i], data[i]);
      assert data[..i + 1] == data[..i] + [data[i]];
      csvRows := csvRows + [Join(values, ",")];
    }
    assert data[..|data|] == data;
    csv := Join(csvRows, "\n");
  }

  /** Every data line has exactly one field per header key, each the quoted value of that key. */
  lemma RowFieldsMatchHeaders(data: seq<Record>, i: nat)
    requires i < |data|
    ensures RowFields(Keys(data[0]), data[i]) == seq(|Headers|, k requires 0 <= k < |Headers| => QuoteField(Cells(data[i])[k]))
  {
    KeysUniform(data[0]);
  }
}
