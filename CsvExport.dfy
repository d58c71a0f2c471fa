/**
 * The CSV encoding of src/app/api/translations/export/route.ts.
 *
 * Every field is quoted and an inner `"` is written twice (section 2, rule 7
 * of RFC 4180); records end in LF rather than the CRLF of rule 1, and the
 * last record ends in one too. A row is a record from column name to value;
 * `None` stands for a `null` or `undefined` value, and a missing column name
 * reads as `undefined`. `ReadCsv` is a reader for exactly this dialect, and
 * the round-trip lemmas show that it recovers the table `ToCsv` wrote.
 */
module CsvExport {
  import opened Wrappers

  type Row = map<string, Option<string>>

  const Quote: char := '"'

  /** `str.replaceAll("\"", "\"\"")`. */
  function DoubleQuotes(s: string): (r: string)
    ensures |r| == |s| + Quotes(s)
    ensures Quote !in s ==> r == s
    decreases |s|
  {
    if s == [] then []
    else (if s[0] == Quote then [Quote, Quote] else [s[0]]) + DoubleQuotes(s[1..])
  }

  /** The number of `"` characters in `s`. */
  function Quotes(s: string): nat
    decreases |s|
  {
    if s == [] then 0 else (if s[0] == Quote then 1 else 0) + Quotes(s[1..])
  }

  /** `csvEscape`: always a quoted field; `null` and `undefined` give the empty one. */
  function CsvEscape(value: Option<string>): (r: string)
    ensures value.None? ==> r == "\"\""
    ensures |r| == |value.GetOr("")| + Quotes(value.GetOr("")) + 2
    ensures r[0] == Quote && r[|r| - 1] == Quote
  {
    [Quote] + DoubleQuotes(value.GetOr("")) + [Quote]
  }

  /**
   * Reads the inside of a quoted field, just after its opening quote, up to and
   * including the closing quote: a doubled quote is one quote of content, a
   * single one ends the field. Returns the content and what follows.
   */
  function ReadQuoted(s: string): (r: Option<(string, string)>)
    ensures r.Some? ==> |r.value.1| < |s|
    decreases |s|
  {
    if s == [] then None
    else if s[0] == Quote then
      if |s| > 1 && s[1] == Quote then
        match ReadQuoted(s[2..])
        case None => None
        case Some((content, rest)) => Some(([Quote] + content, rest))
      else Some(("", s[1..]))
    else
      match ReadQuoted(s[1..])
      case None => None
      case Some((content, rest)) => Some(([s[0]] + content, rest))
  }

  /** Takes the outer quotes off a single field and collapses each `""` pair. */
  function Unescape(field: string): Option<string>
  {
    if field == [] || field[0] != Quote then None
    else match ReadQuoted(field[1..])
      case Some((content, rest)) => if rest == [] then Some(content) else None
      case None => None
  }

  /** A doubled quote is one quote of content. */
  lemma ReadPair(t: string)
    ensures ReadQuoted([Quote, Quote] + t) ==
              match ReadQuoted(t) case None => None case Some((c, r)) => Some(([Quote] + c, r))
  {
    assert ([Quote, Quote] + t)[2..] == t;
  }

  /** Any other character is itself. */
  lemma ReadPlain(ch: char, t: string)
    requires ch != Quote
    ensures ReadQuoted([ch] + t) ==
              match ReadQuoted(t) case None => None case Some((c, r)) => Some(([ch] + c, r))
  {
    assert ([ch] + t)[1..] == t;
  }

  /** Concatenation regrouped so that the first piece stands alone. */
  lemma Regroup(a: string, b: string, c: string, d: string)
    ensures a + b + c + d == a + (b + c + d)
  {
  }

  lemma {:induction false} ReadEscaped(x: string, rest: string)
    requires rest == [] || rest[0] != Quote
    ensures ReadQuoted(DoubleQuotes(x) + [Quote] + rest) == Some((x, rest))
    decreases |x|
  {
    if x == [] {
      assert DoubleQuotes(x) + [Quote] + rest == [Quote] + rest;
      assert ([Quote] + rest)[1..] == rest;
    } else {
      var head := if x[0] == Quote then [Quote, Quote] else [x[0]];
      var tail := DoubleQuotes(x[1..]) + [Quote] + rest;
      assert DoubleQuotes(x) == head + DoubleQuotes(x[1..]);
      Regroup(head, DoubleQuotes(x[1..]), [Quote], rest);
      ReadEscaped(x[1..], rest);
      if x[0] == Quote {
        ReadPair(tail);
      } else {
        ReadPlain(x[0], tail);
      }
      assert [x[0]] + x[1..] == x;
    }
  }

  /** Stripping the outer quotes and collapsing `""` pairs gives back the value. */
  lemma EscapeRoundTrip(s: string)
    ensures Unescape(CsvEscape(Some(s))) == Some(s)
  {
    ReadEscaped(s, "");
    assert CsvEscape(Some(s))[1..] == DoubleQuotes(s) + [Quote] + "";
  }

  /** The summed lengths of `parts`. */
  function TotalLength(parts: seq<string>): nat
    decreases |parts|
  {
    if parts == [] then 0 else |parts[0]| + TotalLength(parts[1..])
  }

  /** `Array.prototype.join(sep)`. */
  function Join(parts: seq<string>, sep: string): (r: string)
    ensures parts != [] ==> |r| == TotalLength(parts) + (|parts| - 1) * |sep|
    ensures parts != [] ==> r[..|parts[0]|] == parts[0]
    decreases |parts|
  {
    if parts == [] then ""
    else if |parts| == 1 then parts[0]
    else parts[0] + sep + Join(parts[1..], sep)
  }

  /** `row[c]` for each column `c`, in column order. */
  function Cells(row: Row, columns: seq<string>): (cells: seq<Option<string>>)
    ensures |cells| == |columns|
    ensures forall i :: 0 <= i < |columns| ==> cells[i] == if columns[i] in row then row[columns[i]] else None
    decreases |columns|
  {
    if columns == [] then []
    else [if columns[0] in row then row[columns[0]] else None] + Cells(row, columns[1..])
  }

  function EscapeAll(values: seq<Option<string>>): (r: seq<string>)
    ensures |r| == |values|
    decreases |values|
  {
    if values == [] then [] else [CsvEscape(values[0])] + EscapeAll(values[1..])
  }

  /** One CSV line: the escaped values joined by commas. */
  function Line(values: seq<Option<string>>): string
  {
    Join(EscapeAll(values), ",")
  }

  function Names(columns: seq<string>): (r: seq<Option<string>>)
    ensures |r| == |columns| && forall i :: 0 <= i < |columns| ==> r[i] == Some(columns[i])
    decreases |columns|
  {
    if columns == [] then [] else [Some(columns[0])] + Names(columns[1..])
  }

  function RowLines(rows: seq<Row>, columns: seq<string>): (r: seq<string>)
    ensures |r| == |rows|
    decreases |rows|
  {
    if rows == [] then [] else [Line(Cells(rows[0], columns))] + RowLines(rows[1..], columns)
  }

  /** `toCsv(rows, columns)`: the header line, one line per row, all ended by LF. */
  function ToCsv(rows: seq<Row>, columns: seq<string>): (csv: string)
    ensures |csv| > 0 && csv[|csv| - 1] == '\n'
    ensures |Line(Names(columns))| < |csv| && csv[..|Line(Names(columns))|] == Line(Names(columns))
  {
    Join([Line(Names(columns))] + RowLines(rows, columns), "\n") + "\n"
  }

  /** Reads quoted fields separated by commas up to the LF that ends the record. */
  function ReadFields(s: string): (r: Option<(seq<string>, string)>)
    ensures r.Some? ==> |r.value.1| < |s|
    decreases |s|
  {
    if s == [] || s[0] != Quote then None
    else match ReadQuoted(s[1..])
      case None => None
      case Some((field, rest)) =>
        if rest != [] && rest[0] == ',' then
          match ReadFields(rest[1..])
          case None => None
          case Some((fields, after)) => Some(([field] + fields, after))
        else if rest != [] && rest[0] == '\n' then Some(([field], rest[1..]))
        else None
  }

  /** One record: an empty line is a record of no fields. */
  function ReadRecord(s: string): (r: Option<(seq<string>, string)>)
    ensures r.Some? ==> |r.value.1| < |s|
  {
    if s != [] && s[0] == '\n' then Some(([], s[1..])) else ReadFields(s)
  }

  /** Reads LF-terminated records of quoted fields until the input runs out. */
  function ReadCsv(s: string): Option<seq<seq<string>>>
    decreases |s|
  {
    if s == [] then Some([])
    else match ReadRecord(s)
      case None => None
      case Some((record, rest)) =>
        match ReadCsv(rest)
        case None => None
        case Some(records) => Some([record] + records)
  }

  /** The values a reader sees in one line: `null`, `undefined` and a missing key all read as empty. */
  function Texts(values: seq<Option<string>>): (r: seq<string>)
    ensures |r| == |values| && forall i :: 0 <= i < |values| ==> r[i] == values[i].GetOr("")
    decreases |values|
  {
    if values == [] then [] else [values[0].GetOr("")] + Texts(values[1..])
  }

  /** The reader takes one escaped field off the front and stops at the separator after it. */
  lemma ReadFirstField(v: Option<string>, after: string)
    requires after != [] && (after[0] == ',' || after[0] == '\n')
    ensures ReadQuoted((CsvEscape(v) + after)[1..]) == Some((v.GetOr(""), after))
  {
    assert (CsvEscape(v) + after)[1..] == DoubleQuotes(v.GetOr("")) + [Quote] + after;
    ReadEscaped(v.GetOr(""), after);
  }

  lemma {:induction false} ReadNonEmptyLine(values: seq<Option<string>>, rest: string)
    requires values != []
    ensures ReadFields(Line(values) + "\n" + rest) == Some((Texts(values), rest))
    decreases |values|
  {
    var e := EscapeAll(values);
    assert e[0] == CsvEscape(values[0]);
    if |values| == 1 {
      var after := "\n" + rest;
      assert Line(values) == e[0];
      assert Line(values) + "\n" + rest == e[0] + after;
      ReadFirstField(values[0], after);
      assert (e[0] + after)[0] == Quote;
      assert after[1..] == rest;
      assert ReadFields(e[0] + after) == Some(([values[0].GetOr("")], rest));
      assert Texts(values) == [values[0].GetOr("")];
    } else {
      assert EscapeAll(values[1..]) == e[1..];
      var tail := Line(values[1..]);
      var after := "," + tail + "\n" + rest;
      assert Line(values) + "\n" + rest == e[0] + after;
      ReadFirstField(values[0], after);
      assert (e[0] + after)[0] == Quote;
      assert after[1..] == tail + "\n" + rest;
      ReadNonEmptyLine(values[1..], rest);
      assert Texts(values) == [values[0].GetOr("")] + Texts(values[1..]);
    }
  }

  /** A line written by `Line` reads back as its values, and the reader stops just after its LF. */
  lemma ReadLine(values: seq<Option<string>>, rest: string)
    ensures ReadRecord(Line(values) + "\n" + rest) == Some((Texts(values), rest))
  {
    if values == [] {
      assert Line(values) + "\n" + rest == "\n" + rest;
    } else {
      ReadNonEmptyLine(values, rest);
      var e := EscapeAll(values);
      assert e[0] == CsvEscape(values[0]);
      assert Join(e, ",")[0] == Quote;
    }
  }

  /** LF-terminated lines read back one record per line. */
  function Terminated(lines: seq<string>): string
    decreases |lines|
  {
    if lines == [] then "" else lines[0] + "\n" + Terminated(lines[1..])
  }

  lemma {:induction false} JoinTerminated(lines: seq<string>)
    requires lines != []
    ensures Join(lines, "\n") + "\n" == Terminated(lines)
    decreases |lines|
  {
    if |lines| > 1 {
      JoinTerminated(lines[1..]);
    }
  }

  function AllTexts(rows: seq<Row>, columns: seq<string>): (r: seq<seq<string>>)
    ensures |r| == |rows|
    decreases |rows|
  {
    if rows == [] then [] else [Texts(Cells(rows[0], columns))] + AllTexts(rows[1..], columns)
  }

  lemma {:induction false} ReadRows(rows: seq<Row>, columns: seq<string>)
    ensures ReadCsv(Terminated(RowLines(rows, columns))) == Some(AllTexts(rows, columns))
    decreases |rows|
  {
    if rows != [] {
      var lines := RowLines(rows, columns);
      ReadRows(rows[1..], columns);
      assert lines[1..] == RowLines(rows[1..], columns);
      ReadLine(Cells(rows[0], columns), Terminated(lines[1..]));
    }
  }

  /**
   * The export reads back as the table it came from: first the column names,
   * then one record per row with exactly one field per column, each the row's
   * value for that column or empty.
   */
  lemma ToCsvRoundTrip(rows: seq<Row>, columns: seq<string>)
    ensures ReadCsv(ToCsv(rows, columns)) == Some([Texts(Names(columns))] + AllTexts(rows, columns))
    ensures Texts(Names(columns)) == columns
  {
    var lines := [Line(Names(columns))] + RowLines(rows, columns);
    JoinTerminated(lines);
    assert lines[1..] == RowLines(rows, columns);
    ReadRows(rows, columns);
    ReadLine(Names(columns), Terminated(RowLines(rows, columns)));
  }

  /** Each record of the export has one field per column, and a missing key reads as an empty field. */
  lemma RecordShape(rows: seq<Row>, columns: seq<string>, i: nat, j: nat)
    requires i < |rows| && j < |columns|
    ensures |AllTexts(rows, columns)[i]| == |columns|
    ensures AllTexts(rows, columns)[i][j] == if columns[j] in rows[i] then rows[i][columns[j]].GetOr("") else ""
  {
    if i > 0 {
      RecordShape(rows[1..], columns, i - 1, j);
    }
  }
}
