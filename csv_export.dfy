/**
 * `convertToCSV`: the export rows as comma-separated text. Every field is wrapped in double
 * quotes; a string field has its quotes doubled first, as section 2 of RFC 4180 prescribes,
 * but records are separated by a bare line feed instead of CRLF.
 *
 * The partner of the serialiser is a reader for the same dialect; the round trip recovers
 * the header and every field's text.
 */
module CsvExport {
  import opened Common

  /** A field value: `null`/`undefined`, a string, or any other value (a number, a date),
      given by the text that string interpolation makes of it. */
  datatype Value = Null | Str(s: string) | Rendered(text: string)

  /** A row object: its own keys in insertion order and its values by key. */
  datatype Row = Row(keys: seq<string>, values: map<string, Value>)

  /** `s.replace(/"/g, '""')`. */
  function Escape(s: string): (r: string)
    ensures |r| >= |s|
  {
    if s == [] then [] else (if s[0] == '"' then "\"\"" else [s[0]]) + Escape(s[1..])
  }

  function Quote(s: string): (r: string)
    ensures |r| == |s| + 2 && r[0] == '"' && r[|r| - 1] == '"'
  {
    "\"" + s + "\""
  }

  /** `parts.join(sep)`. */
  function JoinWith(parts: seq<string>, sep: string): string {
    if parts == [] then "" else if |parts| == 1 then parts[0] else parts[0] + sep + JoinWith(parts[1..], sep)
  }

  /** `row[header]`: `None` when the row lacks that key (`undefined`). */
  function Lookup(row: Row, header: string): Option<Value> {
    if header in row.values then Some(row.values[header]) else None
  }

  /** One emitted field: whatever the value, it starts and ends with a double quote. */
  function Field(v: Option<Value>): (r: string)
    ensures |r| >= 2 && r[0] == '"' && r[|r| - 1] == '"'
  {
    match v
    case None => "\"\""
    case Some(Null) => "\"\""
    case Some(Str(s)) => Quote(Escape(s))
    case Some(Rendered(t)) => Quote(t)
  }

  /** The header line: every key quoted as it is, without doubling its quotes. */
  function HeaderRow(headers: seq<string>): string {
    JoinWith(seq(|headers|, i requires 0 <= i < |headers| => Quote(headers[i])), ",")
  }

  /** The line of one row: the row's value under each header of the first row. */
  function Record(row: Row, headers: seq<string>): string {
    JoinWith(seq(|headers|, i requires 0 <= i < |headers| => Field(Lookup(row, headers[i]))), ",")
  }

  /** The header line followed by one line per row, in order. */
  function CsvLines(data: seq<Row>): (lines: seq<string>)
    requires data != []
    ensures |lines| == |data| + 1
    ensures lines[0] == HeaderRow(data[0].keys)
    ensures forall i :: 0 <= i < |data| ==> lines[i + 1] == Record(data[i], data[0].keys)
  {
    [HeaderRow(data[0].keys)] + seq(|data|, i requires 0 <= i < |data| => Record(data[i], data[0].keys))
  }

  /** `convertToCSV`: the empty string for no rows. */
  function ConvertToCsv(data: seq<Row>): (r: string)
    ensures data == [] ==> r == ""
  {
    if data == [] then "" else JoinWith(CsvLines(data), "\n")
  }

  // ---------------------------------------------------------------------------------
  // The reader

  /** The rest of a quoted field after its opening quote: a doubled quote stands for one
      quote, a single quote closes the field. Returns the field and what follows it. */
  function ParseQuoted(s: string, acc: string): (r: Option<(string, string)>)
    ensures r.Some? ==> |r.value.1| < |s|
    decreases |s|
  {
    if s == [] then None
    else if s[0] == '"' then
      if |s| >= 2 && s[1] == '"' then ParseQuoted(s[2..], acc + ['"']) else Some((acc, s[1..]))
    else ParseQuoted(s[1..], acc + [s[0]])
  }

  /** Records of quoted fields, fields separated by `,` and records by a line feed. */
  function ParseRecords(s: string): (r: Option<seq<seq<string>>>)
    ensures r.Some? ==> |r.value| >= 1
    decreases |s|
  {
    if s == [] || s[0] != '"' then None
    else match ParseQuoted(s[1..], "")
      case None => None
      case Some((field, rest)) =>
        if rest == [] then Some([[field]])
        else if rest[0] == ',' then
          match ParseRecords(rest[1..])
          case None => None
          case Some(records) => Some([[field] + records[0]] + records[1..])
        else if rest[0] == '\n' then
          match ParseRecords(rest[1..])
          case None => None
          case Some(records) => Some([[field]] + records)
        else None
  }

  /** The text a field stands for: empty for a missing or null value. */
  function FieldText(v: Option<Value>): string {
    match v
    case None => ""
    case Some(Null) => ""
    case Some(Str(s)) => s
    case Some(Rendered(t)) => t
  }

  /** Values whose text needs no escaping: rendered non-strings hold no double quote. */
  predicate RenderedQuoteFree(v: Option<Value>) {
    v.Some? && v.value.Rendered? ==> '"' !in v.value.text
  }

  /** The line of quoted, escaped texts. */
  function Line(texts: seq<string>): string {
    JoinWith(seq(|texts|, i requires 0 <= i < |texts| => Quote(Escape(texts[i]))), ",")
  }

  /** Un-doubling after the escape recovers the string, whatever follows the closing quote
      provided it is not itself a quote. */
  lemma {:induction false} ParseQuotedEscape(x: string, acc: string, rest: string)
    requires rest == [] || rest[0] != '"'
    ensures ParseQuoted(Escape(x) + "\"" + rest, acc) == Some((acc + x, rest))
    decreases |x|
  {
    var s := Escape(x) + "\"" + rest;
    if x == [] {
      assert s == "\"" + rest && s[1..] == rest;
      assert acc + x == acc;
    } else if x[0] == '"' {
      assert s == "\"\"" + (Escape(x[1..]) + "\"" + rest);
      ParseQuotedEscape(x[1..], acc + ['"'], rest);
      assert acc + ['"'] + x[1..] == acc + x;
    } else {
      assert s == [x[0]] + (Escape(x[1..]) + "\"" + rest);
      ParseQuotedEscape(x[1..], acc + [x[0]], rest);
      assert acc + [x[0]] + x[1..] == acc + x;
    }
  }

  /** A string with no double quote is its own escape. */
  lemma {:induction false} EscapeQuoteFree(t: string)
    requires '"' !in t
    ensures Escape(t) == t
  {
    if t != [] {
      EscapeQuoteFree(t[1..]);
    }
  }

  /** A line of one text is that text's field; a longer line is its first field, a comma
      and the line of the rest. */
  lemma {:induction false} LineUnfold(texts: seq<string>)
    requires |texts| >= 1
    ensures |texts| == 1 ==> Line(texts) == Quote(Escape(texts[0]))
    ensures |texts| >= 2 ==> Line(texts) == Quote(Escape(texts[0])) + "," + Line(texts[1..])
  {
    var fields := seq(|texts|, i requires 0 <= i < |texts| => Quote(Escape(texts[i])));
    if |texts| == 1 {
      assert fields == [Quote(Escape(texts[0]))];
    } else {
      var tail := texts[1..];
      assert fields[1..] == seq(|tail|, i requires 0 <= i < |tail| => Quote(Escape(tail[i])));
    }
  }

  /** Reading one escaped field followed by what `ParseRecords` reads after a field. */
  lemma {:induction false} ParseFieldThen(x: string, rest: string)
    requires rest == [] || rest[0] != '"'
    ensures var s := Quote(Escape(x)) + rest;
      && s != [] && s[0] == '"'
      && ParseQuoted(s[1..], "") == Some((x, rest))
  {
    var s := Quote(Escape(x)) + rest;
    assert s == "\"" + (Escape(x) + "\"" + rest);
    assert s[1..] == Escape(x) + "\"" + rest;
    ParseQuotedEscape(x, "", rest);
    assert "" + x == x;
  }

  /** Reading a line followed by nothing, or by a line feed and more records. */
  lemma {:induction false} ParseLineThen(texts: seq<string>, rest: string, after: seq<seq<string>>)
    requires |texts| >= 1
    requires (rest == [] && after == []) || (|rest| >= 1 && rest[0] == '\n' && ParseRecords(rest[1..]) == Some(after))
    ensures ParseRecords(Line(texts) + rest) == Some([texts] + after)
    decreases |texts|
  {
    LineUnfold(texts);
    if |texts| == 1 {
      ParseLastField(texts[0], rest, after);
      assert texts == [texts[0]];
    } else {
      var tail := texts[1..];
      ParseLineThen(tail, rest, after);
      ParseFieldComma(texts[0], Line(tail) + rest, [tail] + after);
      assert Line(texts) + rest == Quote(Escape(texts[0])) + "," + (Line(tail) + rest);
      assert [texts[0]] + tail == texts;
    }
  }

  /** The last field of a line: one record of one field, then whatever records follow. */
  lemma {:induction false} ParseLastField(x: string, rest: string, after: seq<seq<string>>)
    requires (rest == [] && after == []) || (|rest| >= 1 && rest[0] == '\n' && ParseRecords(rest[1..]) == Some(after))
    ensures ParseRecords(Quote(Escape(x)) + rest) == Some([[x]] + after)
  {
    ParseFieldThen(x, rest);
    if rest == [] {
      assert [[x]] + after == [[x]];
    }
  }

  /** A field followed by a comma joins the first record read after the comma. */
  lemma {:induction false} ParseFieldComma(x: string, more: string, records: seq<seq<string>>)
    requires ParseRecords(more) == Some(records)
    ensures ParseRecords(Quote(Escape(x)) + "," + more) == Some([[x] + records[0]] + records[1..])
  {
    var rest := "," + more;
    ParseFieldThen(x, rest);
    assert Quote(Escape(x)) + "," + more == Quote(Escape(x)) + rest;
    assert rest[1..] == more;
  }

  /** The line of each record, in order. */
  function Lines(records: seq<seq<string>>): (lines: seq<string>)
    ensures |lines| == |records|
    ensures forall i :: 0 <= i < |records| ==> lines[i] == Line(records[i])
  {
    seq(|records|, i requires 0 <= i < |records| => Line(records[i]))
  }

  /** Reading lines joined by line feeds gives back every line's texts. */
  lemma {:induction false} ParseLines(records: seq<seq<string>>)
    requires |records| >= 1
    requires forall i :: 0 <= i < |records| ==> |records[i]| >= 1
    ensures ParseRecords(JoinWith(Lines(records), "\n")) == Some(records)
    decreases |records|
  {
    var lines := Lines(records);
    if |records| == 1 {
      assert lines == [Line(records[0])];
      assert records == [records[0]];
      ParseLineThen(records[0], "", []);
      assert Line(records[0]) + "" == Line(records[0]);
      assert [records[0]] + [] == records;
    } else {
      var tail := records[1..];
      var tailLines := Lines(tail);
      assert lines[1..] == tailLines;
      ParseLines(tail);
      var rest := "\n" + JoinWith(tailLines, "\n");
      assert JoinWith(lines, "\n") == Line(records[0]) + rest;
      assert rest[1..] == JoinWith(tailLines, "\n");
      ParseLineThen(records[0], rest, tail);
      assert [records[0]] + tail == records;
    }
  }

  /** The texts of one row under the given headers. */
  function RowTexts(row: Row, headers: seq<string>): (texts: seq<string>)
    ensures |texts| == |headers|
  {
    seq(|headers|, i requires 0 <= i < |headers| => FieldText(Lookup(row, headers[i])))
  }

  /** What the export should read back as: the first row's keys, then each row's texts under
      those keys, in order. */
  function TableRecords(data: seq<Row>): (records: seq<seq<string>>)
    requires data != []
    ensures |records| == |data| + 1 && records[0] == data[0].keys
    ensures forall i :: 0 <= i < |data| ==> records[i + 1] == RowTexts(data[i], data[0].keys)
  {
    [data[0].keys] + seq(|data|, i requires 0 <= i < |data| => RowTexts(data[i], data[0].keys))
  }

  /**
   * The round trip: when the first row has at least one key, no key holds a double quote and
   * no rendered value does either, reading the text back yields the header followed by each
   * row's texts under the first row's keys, in order; string values come back exactly.
   */
  lemma {:induction false} ConvertToCsvRoundTrip(data: seq<Row>)
    requires data != [] && |data[0].keys| >= 1
    requires forall i :: 0 <= i < |data[0].keys| ==> '"' !in data[0].keys[i]
    requires forall i, j :: 0 <= i < |data| && 0 <= j < |data[0].keys| ==> RenderedQuoteFree(Lookup(data[i], data[0].keys[j]))
    ensures ParseRecords(ConvertToCsv(data)) == Some(TableRecords(data))
  {
    var records := TableRecords(data);
    CsvLinesAreLines(data);
    ParseLines(records);
  }

  /** Under the same conditions, every line the export writes is the line of its record. */
  lemma {:induction false} CsvLinesAreLines(data: seq<Row>)
    requires data != []
    requires forall i :: 0 <= i < |data[0].keys| ==> '"' !in data[0].keys[i]
    requires forall i, j :: 0 <= i < |data| && 0 <= j < |data[0].keys| ==> RenderedQuoteFree(Lookup(data[i], data[0].keys[j]))
    ensures CsvLines(data) == Lines(TableRecords(data))
  {
    var headers := data[0].keys;
    var records := TableRecords(data);
    var lines := CsvLines(data);
    forall k | 0 <= k < |records| ensures lines[k] == Line(records[k]) {
      if k == 0 {
        HeaderLine(headers);
      } else {
        RecordLine(data[k - 1], headers);
      }
    }
    assert lines == Lines(records);
  }

  /** The header row is the line of the keys when no key holds a double quote. */
  lemma {:induction false} HeaderLine(headers: seq<string>)
    requires forall i :: 0 <= i < |headers| ==> '"' !in headers[i]
    ensures HeaderRow(headers) == Line(headers)
  {
    forall j | 0 <= j < |headers| ensures Quote(headers[j]) == Quote(Escape(headers[j])) {
      EscapeQuoteFree(headers[j]);
    }
    assert seq(|headers|, i requires 0 <= i < |headers| => Quote(headers[i]))
        == seq(|headers|, i requires 0 <= i < |headers| => Quote(Escape(headers[i])));
  }

  /** A data row is the line of its texts when none of its rendered values holds a double quote. */
  lemma {:induction false} RecordLine(row: Row, headers: seq<string>)
    requires forall j :: 0 <= j < |headers| ==> RenderedQuoteFree(Lookup(row, headers[j]))
    ensures Record(row, headers) == Line(RowTexts(row, headers))
  {
    var texts := RowTexts(row, headers);
    forall j | 0 <= j < |headers| ensures Field(Lookup(row, headers[j])) == Quote(Escape(texts[j])) {
      var v := Lookup(row, headers[j]);
      if v.Some? && v.value.Rendered? {
        EscapeQuoteFree(v.value.text);
      }
    }
    assert seq(|headers|, i requires 0 <= i < |headers| => Field(Lookup(row, headers[i])))
        == seq(|texts|, i requires 0 <= i < |texts| => Quote(Escape(texts[i])));
  }

  /** A string field needs no condition: it comes back exactly, quotes, commas and line feeds included. */
  lemma {:induction false} StringFieldRoundTrip(s: string)
    ensures ParseRecords(Field(Some(Str(s)))) == Some([[s]])
  {
    ParseLineThen([s], "", []);
    assert seq(1, i requires 0 <= i < 1 => Quote(Escape([s][i]))) == [Quote(Escape(s))];
    assert Line([s]) == Field(Some(Str(s)));
    assert Line([s]) + "" == Line([s]);
    assert [[s]] + [] == [[s]];
  }
}
