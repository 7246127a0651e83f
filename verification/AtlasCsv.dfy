/**
 * The CSV export against a reader written as its specification: lines end with a line feed, cells
 * are separated by commas, and quoting follows section 2 of RFC 4180 (a carriage return is plain
 * text).
 */
module AtlasCsv {
  import opened Basics

  // ---------------------------------------------------------------------------------------------
  // The writer
  // ---------------------------------------------------------------------------------------------

  /** A cell of a row; numbers arrive as the text JavaScript gives them. */
  datatype Cell = Null | Text(text: string) | Number(digits: string)

  datatype Column = Column(key: string, heading: string)

  type Row = map<string, Cell>

  predicate NeedsQuotes(s: string) {
    '"' in s || ',' in s || '\n' in s
  }

  function DoubleQuotes(s: string): string {
    if s == [] then []
    else (if s[0] == '"' then "\"\"" else [s[0]]) + DoubleQuotes(s[1..])
  }

  function SerializeText(s: string): string {
    if NeedsQuotes(s) then "\"" + DoubleQuotes(s) + "\"" else s
  }

  /** What the reader is meant to get back for a cell; a missing one reads as empty. */
  function CellText(row: Row, key: string): string {
    if key !in row then ""
    else
      match row[key]
      case Null => ""
      case Text(text) => text
      case Number(digits) => digits
  }

  function SerializeCell(row: Row, key: string): string {
    if key !in row || row[key].Null? then "" else SerializeText(CellText(row, key))
  }

  /** JavaScript's `join`. */
  function Join(parts: seq<string>, separator: char): string {
    if parts == [] then ""
    else if |parts| == 1 then parts[0]
    else parts[0] + [separator] + Join(parts[1..], separator)
  }

  function HeaderLine(columns: seq<Column>): string {
    Join(seq(|columns|, i requires 0 <= i < |columns| => SerializeText(columns[i].heading)), ',')
  }

  function RowLine(columns: seq<Column>, row: Row): string {
    Join(seq(|columns|, i requires 0 <= i < |columns| => SerializeCell(row, columns[i].key)), ',')
  }

  function CreateCsv(columns: seq<Column>, rows: seq<Row>): string {
    Join([HeaderLine(columns)] + seq(|rows|, i requires 0 <= i < |rows| => RowLine(columns, rows[i])), '\n')
  }

  // ---------------------------------------------------------------------------------------------
  // The reader
  // ---------------------------------------------------------------------------------------------

  /** A cell and what follows it, or a malformed text. */
  datatype Parsed<T> = Malformed | Parsed(value: T, rest: string)

  /** Plain text up to the next comma, line feed or end; a quote inside is malformed. */
  function ReadPlain(s: string): (p: Parsed<string>)
    ensures p.Parsed? ==> |p.rest| <= |s|
  {
    if s == [] || s[0] == ',' || s[0] == '\n' then Parsed([], s)
    else if s[0] == '"' then Malformed
    else
      match ReadPlain(s[1..])
      case Malformed => Malformed
      case Parsed(text, rest) => Parsed([s[0]] + text, rest)
  }

  /** Quoted text after its opening quote; a doubled quote stands for one. */
  function ReadQuoted(s: string): (p: Parsed<string>)
    ensures p.Parsed? ==> |p.rest| < |s|
  {
    if s == [] then Malformed
    else if s[0] == '"' then
      if |s| > 1 && s[1] == '"' then
        match ReadQuoted(s[2..])
        case Malformed => Malformed
        case Parsed(text, rest) => Parsed(['"'] + text, rest)
      else Parsed([], s[1..])
    else
      match ReadQuoted(s[1..])
      case Malformed => Malformed
      case Parsed(text, rest) => Parsed([s[0]] + text, rest)
  }

  function ReadCell(s: string): (p: Parsed<string>)
    ensures p.Parsed? ==> |p.rest| <= |s|
  {
    if s != [] && s[0] == '"' then ReadQuoted(s[1..]) else ReadPlain(s)
  }

  /** Cells separated by commas up to a line feed or the end. */
  function ReadLine(s: string): (p: Parsed<seq<string>>)
    ensures p.Parsed? ==> |p.rest| <= |s|
    decreases |s|
  {
    match ReadCell(s)
    case Malformed => Malformed
    case Parsed(text, rest) =>
      if rest != [] && rest[0] == ',' then
        match ReadLine(rest[1..])
        case Malformed => Malformed
        case Parsed(texts, after) => Parsed([text] + texts, after)
      else if rest == [] || rest[0] == '\n' then Parsed([text], rest)
      else Malformed
  }

  /** Lines separated by line feeds. */
  function ReadCsv(s: string): (table: Option<seq<seq<string>>>)
    decreases |s|
  {
    match ReadLine(s)
    case Malformed => None
    case Parsed(texts, rest) =>
      if rest == [] then Some([texts])
      else
        match ReadCsv(rest[1..])
        case None => None
        case Some(lines) => Some([texts] + lines)
  }

  // ---------------------------------------------------------------------------------------------
  // Round trip
  // ---------------------------------------------------------------------------------------------

  /** A cell ends at a separator or at the end of the text. */
  predicate EndsCell(rest: string) {
    rest == [] || rest[0] == ',' || rest[0] == '\n'
  }

  lemma {:induction false} PlainReadsBack(s: string, rest: string)
    requires !NeedsQuotes(s) && EndsCell(rest)
    ensures ReadPlain(s + rest) == Parsed(s, rest)
  {
    if s == [] {
      assert s + rest == rest;
    } else {
      assert s[0] in s;
      assert forall c :: c in s[1..] ==> c in s;
      assert (s + rest)[1..] == s[1..] + rest;
      PlainReadsBack(s[1..], rest);
      assert [s[0]] + s[1..] == s;
    }
  }

  lemma {:induction false} QuotedReadsBack(s: string, rest: string)
    requires rest == [] || rest[0] != '"'
    ensures ReadQuoted(DoubleQuotes(s) + "\"" + rest) == Parsed(s, rest)
  {
    var text := DoubleQuotes(s) + "\"" + rest;
    if s == [] {
      assert text == "\"" + rest;
    } else {
      var tail := DoubleQuotes(s[1..]) + "\"" + rest;
      QuotedReadsBack(s[1..], rest);
      assert [s[0]] + s[1..] == s;
      if s[0] == '"' {
        assert text == "\"\"" + tail;
        DoubledQuoteReads(tail);
      } else {
        assert text == [s[0]] + tail;
        OrdinaryCharReads(s[0], tail);
      }
    }
  }

  lemma DoubledQuoteReads(tail: string)
    ensures ReadQuoted(tail).Parsed? ==>
              ReadQuoted("\"\"" + tail) == Parsed(['"'] + ReadQuoted(tail).value, ReadQuoted(tail).rest)
  {
    assert ("\"\"" + tail)[2..] == tail;
  }

  lemma OrdinaryCharReads(c: char, tail: string)
    requires c != '"'
    ensures ReadQuoted(tail).Parsed? ==>
              ReadQuoted([c] + tail) == Parsed([c] + ReadQuoted(tail).value, ReadQuoted(tail).rest)
  {
    assert ([c] + tail)[1..] == tail;
  }

  /** Every text reads back as itself, whatever quotes, commas and line feeds it contains. */
  lemma CellReadsBack(s: string, rest: string)
    requires EndsCell(rest)
    ensures ReadCell(SerializeText(s) + rest) == Parsed(s, rest)
  {
    if NeedsQuotes(s) {
      QuotedCellReadsBack(s, rest);
    } else {
      PlainReadsBack(s, rest);
      PlainStart(s, rest);
    }
  }

  lemma QuotedCellReadsBack(s: string, rest: string)
    requires rest == [] || rest[0] != '"'
    ensures ReadCell("\"" + DoubleQuotes(s) + "\"" + rest) == Parsed(s, rest)
  {
    var text := "\"" + DoubleQuotes(s) + "\"" + rest;
    assert text[1..] == DoubleQuotes(s) + "\"" + rest;
    QuotedReadsBack(s, rest);
  }

  lemma PlainStart(s: string, rest: string)
    requires '"' !in s && EndsCell(rest)
    ensures ReadCell(s + rest) == ReadPlain(s + rest)
  {
    if s == [] {
      assert s + rest == rest;
    } else {
      assert s[0] in s;
    }
  }

  function SerializeAll(texts: seq<string>): seq<string> {
    seq(|texts|, i requires 0 <= i < |texts| => SerializeText(texts[i]))
  }

  lemma {:induction false} LineReadsBack(texts: seq<string>, rest: string)
    requires texts != [] && (rest == [] || rest[0] == '\n')
    ensures ReadLine(Join(SerializeAll(texts), ',') + rest) == Parsed(texts, rest)
  {
    if |texts| == 1 {
      CellReadsBack(texts[0], rest);
      assert texts == [texts[0]];
    } else {
      var joined := Join(SerializeAll(texts[1..]), ',');
      JoinStep(texts, ',');
      Regroup(SerializeText(texts[0]), ',', joined, rest);
      LineReadsBack(texts[1..], rest);
      CellThenLine(texts[0], joined + rest, texts[1..], rest);
      assert texts == [texts[0]] + texts[1..];
    }
  }

  lemma JoinStep(texts: seq<string>, separator: char)
    requires |texts| > 1
    ensures Join(SerializeAll(texts), separator) ==
            SerializeText(texts[0]) + [separator] + Join(SerializeAll(texts[1..]), separator)
  {
    assert SerializeAll(texts)[1..] == SerializeAll(texts[1..]);
  }

  lemma Regroup(first: string, separator: char, middle: string, rest: string)
    ensures (first + [separator] + middle) + rest == first + ([separator] + (middle + rest))
  {
  }

  lemma CellThenLine(text: string, tail: string, texts: seq<string>, rest: string)
    requires ReadLine(tail) == Parsed(texts, rest)
    ensures ReadLine(SerializeText(text) + ([','] + tail)) == Parsed([text] + texts, rest)
  {
    CellReadsBack(text, [','] + tail);
    assert ([','] + tail)[1..] == tail;
  }

  function LinesOf(table: seq<seq<string>>): seq<string> {
    seq(|table|, i requires 0 <= i < |table| => Join(SerializeAll(table[i]), ','))
  }

  lemma {:induction false} TableReadsBack(table: seq<seq<string>>)
    requires table != [] && forall i :: 0 <= i < |table| ==> table[i] != []
    ensures ReadCsv(Join(LinesOf(table), '\n')) == Some(table)
  {
    var lines := LinesOf(table);
    if |table| == 1 {
      LineReadsBack(table[0], []);
      assert Join(lines, '\n') == Join(SerializeAll(table[0]), ',') + [];
      assert table == [table[0]];
    } else {
      var tail := Join(LinesOf(table[1..]), '\n');
      assert lines[1..] == LinesOf(table[1..]);
      assert Join(lines, '\n') == Join(SerializeAll(table[0]), ',') + (['\n'] + tail);
      TableReadsBack(table[1..]);
      LineThenTable(table[0], tail, table[1..]);
      assert table == [table[0]] + table[1..];
    }
  }

  lemma LineThenTable(texts: seq<string>, tail: string, table: seq<seq<string>>)
    requires texts != [] && ReadCsv(tail) == Some(table)
    ensures ReadCsv(Join(SerializeAll(texts), ',') + (['\n'] + tail)) == Some([texts] + table)
  {
    LineReadsBack(texts, ['\n'] + tail);
    assert (['\n'] + tail)[1..] == tail;
  }

  function Labels(columns: seq<Column>): seq<string> {
    seq(|columns|, i requires 0 <= i < |columns| => columns[i].heading)
  }

  function Texts(columns: seq<Column>, row: Row): seq<string> {
    seq(|columns|, i requires 0 <= i < |columns| => CellText(row, columns[i].key))
  }

  /** The table an export stands for: the labels, then the text of every cell. */
  function Table(columns: seq<Column>, rows: seq<Row>): seq<seq<string>> {
    [Labels(columns)] + seq(|rows|, i requires 0 <= i < |rows| => Texts(columns, rows[i]))
  }

  lemma CsvIsTable(columns: seq<Column>, rows: seq<Row>)
    ensures CreateCsv(columns, rows) == Join(LinesOf(Table(columns, rows)), '\n')
  {
    var table := Table(columns, rows);
    assert SerializeText("") == "";
    forall i | 0 <= i < |rows| ensures RowLine(columns, rows[i]) == LinesOf(table)[i + 1] {
      assert table[i + 1] == Texts(columns, rows[i]);
      assert seq(|columns|, j requires 0 <= j < |columns| => SerializeCell(rows[i], columns[j].key))
          == SerializeAll(Texts(columns, rows[i]));
    }
    assert seq(|columns|, j requires 0 <= j < |columns| => SerializeText(columns[j].heading)) == SerializeAll(Labels(columns));
    assert [HeaderLine(columns)] + seq(|rows|, i requires 0 <= i < |rows| => RowLine(columns, rows[i])) == LinesOf(table);
  }

  /** The text stands for the cell: a missing or null one is empty, any other one verbatim. */
  ghost predicate Shows(row: Row, key: string, text: string) {
    && (text == "" || (key in row && row[key] in {Text(text), Number(text)}))
    && (key in row ==> row[key] in {Null, Text(text), Number(text)})
  }

  /** The table has a line of headings and one line per row, each showing all columns in order. */
  ghost predicate IsTableOf(columns: seq<Column>, rows: seq<Row>, table: seq<seq<string>>) {
    && |table| == |rows| + 1
    && (forall i :: 0 <= i < |table| ==> |table[i]| == |columns|)
    && (forall j :: 0 <= j < |columns| ==> table[0][j] == columns[j].heading)
    && (forall i, j :: 0 <= i < |rows| && 0 <= j < |columns| ==> Shows(rows[i], columns[j].key, table[i + 1][j]))
  }

  lemma TableIsExactly(columns: seq<Column>, rows: seq<Row>)
    ensures IsTableOf(columns, rows, Table(columns, rows))
  {
    var table := Table(columns, rows);
    forall i, j | 0 <= i < |rows| && 0 <= j < |columns| ensures Shows(rows[i], columns[j].key, table[i + 1][j]) {
      assert table[i + 1] == Texts(columns, rows[i]);
      var row, key := rows[i], columns[j].key;
      if key in row {
        match row[key]
        case Null =>
        case Text(_) =>
        case Number(_) =>
      }
    }
  }

  /**
   * Reading an export returns exactly the labels and the cell texts, for all cell contents, if and
   * only if there is at least one column.
   */
  lemma CsvRoundTrip(columns: seq<Column>, rows: seq<Row>)
    ensures ReadCsv(CreateCsv(columns, rows)) == Some(Table(columns, rows)) <==> columns != []
    ensures columns != [] ==>
              ReadCsv(CreateCsv(columns, rows)).Some? && IsTableOf(columns, rows, ReadCsv(CreateCsv(columns, rows)).value)
  {
    TableIsExactly(columns, rows);
    CsvIsTable(columns, rows);
    var table := Table(columns, rows);
    if columns != [] {
      assert forall i :: 0 <= i < |table| ==> |table[i]| == |columns|;
      TableReadsBack(table);
    } else {
      EveryLineHasACell(CreateCsv(columns, rows));
      assert table[0] == [];
    }
  }

  /** The reader never returns a line without cells. */
  lemma {:induction false} EveryLineHasACell(s: string)
    ensures ReadCsv(s).Some? ==> |ReadCsv(s).value| > 0 && ReadCsv(s).value[0] != []
  {
  }

  /** Hence two exports with the same text show the same table. */
  lemma CsvIsInjective(columns: seq<Column>, rows: seq<Row>, otherColumns: seq<Column>, otherRows: seq<Row>)
    requires columns != [] && otherColumns != []
    requires CreateCsv(columns, rows) == CreateCsv(otherColumns, otherRows)
    ensures Table(columns, rows) == Table(otherColumns, otherRows)
  {
    CsvRoundTrip(columns, rows);
    CsvRoundTrip(otherColumns, otherRows);
  }
}
