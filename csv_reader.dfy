/**
 * A reader for the CSV text the harness writes, used to state what that
 * text means: quoted fields follow section 2 of RFC 4180 (a `""` inside a
 * quoted field stands for one `"`), unquoted fields run to the next comma
 * or line feed, and records end with a line feed.
 */
module CsvReader {
  import opened Wrappers
  import opened Records
  import opened Csv

  /** The rest of a quoted field after its opening quote: its value and what follows the closing quote. */
  function ParseQuoted(s: string): (r: Option<(string, string)>)
    ensures r.Some? ==> |r.value.1| < |s|
  {
    if s == [] then None
    else if s[0] == '"' then
      if |s| >= 2 && s[1] == '"' then
        match ParseQuoted(s[2..])
        case None => None
        case Some((v, rest)) => Some(("\"" + v, rest))
      else Some(([], s[1..]))
    else
      match ParseQuoted(s[1..])
      case None => None
      case Some((v, rest)) => Some(([s[0]] + v, rest))
  }

  /** An unquoted field: everything up to the next comma or line feed. */
  function ParseBare(s: string): (r: (string, string))
    ensures r.0 + r.1 == s
  {
    if s == [] || s[0] == ',' || s[0] == '\n' then ([], s)
    else
      var (v, rest) := ParseBare(s[1..]);
      ([s[0]] + v, rest)
  }

  function ParseField(s: string): (r: Option<(string, string)>)
    ensures r.Some? ==> |r.value.1| <= |s|
    ensures r.Some? && s != [] && s[0] == '"' ==> |r.value.1| < |s|
  {
    if s != [] && s[0] == '"' then ParseQuoted(s[1..]) else Some(ParseBare(s))
  }

  /** One record: its fields and the text after its line feed. */
  function ParseRecord(s: string): (r: Option<(seq<string>, string)>)
    decreases |s|
    ensures r.Some? ==> |r.value.1| <= |s|
    ensures r.Some? && s != [] ==> |r.value.1| < |s|
  {
    match ParseField(s)
    case None => None
    case Some((f, rest)) =>
      if rest == [] then Some(([f], []))
      else if rest[0] == ',' then
        match ParseRecord(rest[1..])
        case None => None
        case Some((fs, after)) => Some(([f] + fs, after))
      else if rest[0] == '\n' then Some(([f], rest[1..]))
      else None
  }

  /** All records of a CSV text. */
  function ParseRows(s: string): Option<seq<seq<string>>>
    decreases |s|
  {
    if s == [] then Some([])
    else
      match ParseRecord(s)
      case None => None
      case Some((fields, rest)) =>
        match ParseRows(rest)
        case None => None
        case Some(rows) => Some([fields] + rows)
  }

  /** A header name that can stand unquoted: non-empty, not opening with a quote, with no comma or line feed. */
  predicate Plain(h: string)
  {
    h != [] && h[0] != '"' && ',' !in h && '\n' !in h
  }

  /** `e` is how the writer emits field value `f`: quoted, or (for header names) as is. */
  predicate Encodes(e: string, f: string)
  {
    e == QuoteField(f) || (Plain(f) && e == f)
  }

  /** What may follow a field: nothing, a comma or a line feed. */
  predicate Delimited(rest: string)
  {
    rest == [] || rest[0] == ',' || rest[0] == '\n'
  }

  /**
   * Undoubling the inner part of an emitted field recovers the value: the
   * reader, started after the opening quote, stops at the closing quote
   * with exactly the original text.
   */
  lemma {:induction false} QuotedRoundTrip(v: string, rest: string)
    requires rest == [] || rest[0] != '"'
    ensures ParseQuoted(DoubleQuotes(v) + "\"" + rest) == Some((v, rest))
  {
    var s := DoubleQuotes(v) + "\"" + rest;
    if v == [] {
      assert s == "\"" + rest;
      assert s[1..] == rest;
    } else if v[0] == '"' {
      assert s == "\"\"" + (DoubleQuotes(v[1..]) + "\"" + rest);
      assert s[2..] == DoubleQuotes(v[1..]) + "\"" + rest;
      QuotedRoundTrip(v[1..], rest);
      assert "\"" + v[1..] == v;
    } else {
      assert s == [v[0]] + (DoubleQuotes(v[1..]) + "\"" + rest);
      assert s[1..] == DoubleQuotes(v[1..]) + "\"" + rest;
      QuotedRoundTrip(v[1..], rest);
      assert [v[0]] + v[1..] == v;
    }
  }

  lemma {:induction false} BareRoundTrip(h: string, rest: string)
    requires ',' !in h && '\n' !in h
    requires Delimited(rest)
    ensures ParseBare(h + rest) == (h, rest)
  {
    if h == [] {
      assert h + rest == rest;
    } else {
      assert (h + rest)[1..] == h[1..] + rest;
      assert forall c :: c in h[1..] ==> c in h;
      BareRoundTrip(h[1..], rest);
      assert [h[0]] + h[1..] == h;
    }
  }

  lemma FieldRoundTrip(e: string, f: string, rest: string)
    requires Encodes(e, f)
    requires Delimited(rest)
    ensures ParseField(e + rest) == Some((f, rest))
  {
    if e == QuoteField(f) {
      assert e + rest == "\"" + (DoubleQuotes(f) + "\"" + rest);
      assert (e + rest)[1..] == DoubleQuotes(f) + "\"" + rest;
      QuotedRoundTrip(f, rest);
    } else {
      BareRoundTrip(f, rest);
    }
  }

  /** A line of encoded fields joined by commas reads back as those field values. */
  lemma {:induction false} RecordRoundTrip(es: seq<string>, fs: seq<string>, rest: string)
    requires |es| == |fs| >= 1
    requires forall i :: 0 <= i < |es| ==> Encodes(es[i], fs[i])
    requires rest == [] || rest[0] == '\n'
    ensures ParseRecord(Join(es, ",") + rest) == Some((fs, if rest == [] then [] else rest[1..]))
  {
    if |es| == 1 {
      FieldRoundTrip(es[0], fs[0], rest);
      assert fs == [fs[0]];
    } else {
      var tail := Join(es[1..], ",") + rest;
      assert Join(es, ",") + rest == es[0] + ("," + tail);
      FieldRoundTrip(es[0], fs[0], "," + tail);
      assert ("," + tail)[1..] == tail;
      RecordRoundTrip(es[1..], fs[1..], rest);
      assert [fs[0]] + fs[1..] == fs;
    }
  }

  lemma JoinNonEmpty(es: seq<string>, sep: string)
    requires |es| >= 1 && es[0] != []
    ensures Join(es, sep) != [] && Join(es, sep)[0] == es[0][0]
  {
  }

  /** `es` is a line of emitted fields for the values `fs`. */
  predicate RowEncodes(es: seq<string>, fs: seq<string>)
  {
    |es| == |fs| >= 1 && es[0] != [] && forall k :: 0 <= k < |es| ==> Encodes(es[k], fs[k])
  }

  /** The first line of a text of at least two lines reads back as its fields, leaving the other lines. */
  lemma FirstLineRoundTrip(ess: seq<seq<string>>, fs: seq<string>)
    requires |ess| >= 2 && RowEncodes(ess[0], fs)
    ensures Join(JoinEach(ess), "\n") != []
    ensures ParseRecord(Join(JoinEach(ess), "\n")) == Some((fs, Join(JoinEach(ess[1..]), "\n")))
  {
    var lines := JoinEach(ess);
    var tail := Join(lines[1..], "\n");
    assert lines[0] == Join(ess[0], ",");
    JoinNonEmpty(ess[0], ",");
    assert Join(lines, "\n") == Join(ess[0], ",") + ("\n" + tail);
    RecordRoundTrip(ess[0], fs, "\n" + tail);
    assert ("\n" + tail)[1..] == tail;
    assert JoinEach(ess[1..]) == lines[1..];
  }

  /** A one-line text reads back as that line's fields. */
  lemma LastLineRoundTrip(es: seq<string>, fs: seq<string>)
    requires RowEncodes(es, fs)
    ensures ParseRows(Join(JoinEach([es]), "\n")) == Some([fs])
  {
    var text := Join(JoinEach([es]), "\n");
    JoinNonEmpty(es, ",");
    assert JoinEach([es]) == [Join(es, ",")];
    assert text == Join(es, ",") + [];
    RecordRoundTrip(es, fs, []);
    assert ParseRecord(text) == Some((fs, []));
    assert ParseRows([]) == Some([]);
    assert ParseRows(text) == Some([fs] + []);
    assert [fs] + [] == [fs];
  }

  /** The lines of a text, each a record of encoded fields, read back as the field values. */
  lemma {:induction false} LinesRoundTrip(ess: seq<seq<string>>, fss: seq<seq<string>>)
    requires |ess| == |fss|
    requires forall i :: 0 <= i < |ess| ==> RowEncodes(ess[i], fss[i])
    ensures ParseRows(Join(JoinEach(ess), "\n")) == Some(fss)
  {
    if |ess| == 1 {
      assert ess == [ess[0]] && fss == [fss[0]];
      LastLineRoundTrip(ess[0], fss[0]);
    } else if |ess| >= 2 {
      assert RowEncodes(ess[0], fss[0]);
      FirstLineRoundTrip(ess, fss[0]);
      LinesRoundTrip(ess[1..], fss[1..]);
      assert [fss[0]] + fss[1..] == fss;
    }
  }

  function JoinEach(ess: seq<seq<string>>): (lines: seq<string>)
    ensures |lines| == |ess|
  {
    seq(|ess|, i requires 0 <= i < |ess| => Join(ess[i], ","))
  }

  // The twelve header literals are checked two at a time: each `Plain`
  // check unfolds its string character by character, and all twelve in one
  // proof obligation exceed the solver's budget.
  lemma HeadersPlain0()
    ensures Plain(Headers[0]) && Plain(Headers[1])
  {
  }

  lemma HeadersPlain1()
    ensures Plain(Headers[2]) && Plain(Headers[3])
  {
  }

  lemma HeadersPlain2()
    ensures Plain(Headers[4]) && Plain(Headers[5])
  {
  }

  lemma HeadersPlain3()
    ensures Plain(Headers[6]) && Plain(Headers[7])
  {
  }

  lemma HeadersPlain4()
    ensures Plain(Headers[8]) && Plain(Headers[9])
  {
  }

  lemma HeadersPlain5()
    ensures Plain(Headers[10]) && Plain(Headers[11])
  {
  }

  /** Every header name can stand unquoted. */
  lemma HeadersPlain()
    ensures forall k :: 0 <= k < |Headers| ==> Plain(Headers[k])
  {
    HeadersPlain0();
    HeadersPlain1();
    HeadersPlain2();
    HeadersPlain3();
    HeadersPlain4();
    HeadersPlain5();
    forall k | 0 <= k < |Headers| ensures Plain(Headers[k]) {
      if k < 6 {
        assert k == 0 || k == 1 || k == 2 || k == 3 || k == 4 || k == 5;
      } else {
        assert k == 6 || k == 7 || k == 8 || k == 9 || k == 10 || k == 11;
      }
    }
  }

  /** The field values of the CSV text: the keys, then each record's stringified values. */
  function Table(data: seq<Record>): (t: seq<seq<string>>)
    requires data != []
    ensures |t| == |data| + 1
  {
    [Headers] + seq(|data|, i requires 0 <= i < |data| => Cells(data[i]))
  }

  /** The emitted fields of the CSV text, line by line, before joining. */
  function Emitted(data: seq<Record>): (t: seq<seq<string>>)
    requires data != []
    ensures |t| == |data| + 1
  {
    var headers := Keys(data[0]);
    [headers] + seq(|data|, i requires 0 <= i < |data| => RowFields(headers, data[i]))
  }

  /** Each data line quotes exactly the record's values. */
  lemma EmittedRow(data: seq<Record>, i: nat)
    requires i < |data|
    ensures RowEncodes(RowFields(Keys(data[0]), data[i]), Cells(data[i]))
  {
    RowFieldsMatchHeaders(data, i);
  }

  /** The header line holds the keys, unquoted. */
  lemma EmittedHeader(r: Record)
    ensures RowEncodes(Keys(r), Headers)
  {
    KeysUniform(r);
    HeadersPlain();
  }

  /** Line i + 1 encodes the cells of record i. */
  lemma EmittedRows(data: seq<Record>)
    requires data != []
    ensures forall i :: 1 <= i < |data| + 1 ==> RowEncodes(Emitted(data)[i], Table(data)[i])
  {
    forall i | 1 <= i < |data| + 1 ensures RowEncodes(Emitted(data)[i], Table(data)[i]) {
      assert Emitted(data)[i] == RowFields(Keys(data[0]), data[i - 1]);
      assert Table(data)[i] == Cells(data[i - 1]);
      EmittedRow(data, i - 1);
    }
  }

  lemma EmittedEncodesTable(data: seq<Record>)
    requires data != []
    ensures forall i :: 0 <= i < |data| + 1 ==> RowEncodes(Emitted(data)[i], Table(data)[i])
  {
    EmittedHeader(data[0]);
    assert RowEncodes(Emitted(data)[0], Table(data)[0]);
    EmittedRows(data);
  }

  lemma EmittedJoined(data: seq<Record>)
    requires data != []
    ensures JoinEach(Emitted(data)) == CsvLines(data)
  {
  }

  /**
   * Reading back the CSV text gives the header keys and then, for every
   * record in order, its stringified values: one line per record plus the
   * header, each with exactly one field per key, and every value recovered
   * whatever commas, quotes or line feeds it holds. An empty list gives an
   * empty text.
   */
  lemma CsvRoundTrip(data: seq<Record>)
    ensures data == [] ==> ParseRows(CsvText(data)) == Some([])
    ensures data != [] ==> ParseRows(CsvText(data)) == Some(Table(data))
  {
    if data != [] {
      EmittedEncodesTable(data);
      EmittedJoined(data);
      LinesRoundTrip(Emitted(data), Table(data));
    }
  }
}
