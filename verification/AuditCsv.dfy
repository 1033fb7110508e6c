/**
 * The CSV export of the audit log (audit-logs.service.ts, toCsv) and a parser
 * for section 2 of RFC 4180 that reads it back.
 */
module AuditCsv {
  import opened Prelude

  /** A value already turned to text; `None` stands for null and undefined. */
  type Cell = Option<string>

  /** An audit row, by column name; an absent column is undefined. */
  type AuditRow = map<string, Cell>

  const HEADERS: seq<string> :=
    ["timestamp", "user_name", "user_email", "user_role", "action",
     "entity_type", "entity_id", "entity_label", "ip_address", "user_agent"]

  const BOM := '\U{FEFF}'
  const CRLF := "\r\n"

  // ---------------------------------------------------------------- printing

  function DoubleQuotes(s: string): string {
    if s == [] then []
    else (if s[0] == '"' then "\"\"" else [s[0]]) + DoubleQuotes(s[1..])
  }

  function Escape(value: Cell): string {
    if value.None? then "" else "\"" + DoubleQuotes(value.value) + "\""
  }

  function Join(parts: seq<string>, separator: string): string {
    if parts == [] then []
    else if |parts| == 1 then parts[0]
    else parts[0] + separator + Join(parts[1..], separator)
  }

  function CellAt(row: AuditRow, column: string): Cell {
    if column in row then row[column] else None
  }

  function CellsOf(row: AuditRow): (cells: seq<Cell>)
    ensures |cells| == |HEADERS|
  {
    seq(|HEADERS|, i requires 0 <= i < |HEADERS| => CellAt(row, HEADERS[i]))
  }

  function Escaped(cells: seq<Cell>): (texts: seq<string>)
    ensures |texts| == |cells| && forall i :: 0 <= i < |cells| ==> texts[i] == Escape(cells[i])
  {
    seq(|cells|, i requires 0 <= i < |cells| => Escape(cells[i]))
  }

  // ----------------------------------------------------------------- parsing

  datatype Field = Bare(text: string) | Quoted(text: string)

  datatype Parsed<+T> = Failed | Done(value: T, rest: string)

  /** The text of a quoted field, after its opening quote. */
  function ParseQuoted(s: string): (p: Parsed<string>)
    ensures p.Done? ==> |p.rest| < |s|
  {
    if s == [] then Failed
    else if s[0] != '"' then
      match ParseQuoted(s[1..])
      case Failed => Failed
      case Done(text, rest) => Done([s[0]] + text, rest)
    else if |s| > 1 && s[1] == '"' then
      match ParseQuoted(s[2..])
      case Failed => Failed
      case Done(text, rest) => Done("\"" + text, rest)
    else Done([], s[1..])
  }

  predicate IsText(c: char) {
    c != ',' && c != '"' && c != '\r' && c != '\n'
  }

  function ParseBare(s: string): (p: Parsed<string>)
    ensures p.Done? && |p.rest| <= |s|
  {
    if s == [] || !IsText(s[0]) then Done([], s)
    else var tail := ParseBare(s[1..]); Done([s[0]] + tail.value, tail.rest)
  }

  function ParseField(s: string): (p: Parsed<Field>)
    ensures p.Done? ==> |p.rest| <= |s|
  {
    if s != [] && s[0] == '"' then
      match ParseQuoted(s[1..])
      case Failed => Failed
      case Done(text, rest) => Done(Quoted(text), rest)
    else
      var bare := ParseBare(s);
      Done(Bare(bare.value), bare.rest)
  }

  function ParseRecord(s: string): (p: Parsed<seq<Field>>)
    ensures p.Done? ==> |p.rest| <= |s|
    decreases |s|
  {
    match ParseField(s)
    case Failed => Failed
    case Done(field, rest) =>
      if rest != [] && rest[0] == ',' then
        match ParseRecord(rest[1..])
        case Failed => Failed
        case Done(fields, after) => Done([field] + fields, after)
      else Done([field], rest)
  }

  /** Records separated by CRLF; the last one may end with it or not. */
  function ParseFile(s: string): Option<seq<seq<Field>>>
    decreases |s|
  {
    match ParseRecord(s)
    case Failed => None
    case Done(record, rest) =>
      if rest == [] || rest == CRLF then Some([record])
      else if |rest| > 2 && rest[..2] == CRLF then
        match ParseFile(rest[2..])
        case None => None
        case Some(records) => Some([record] + records)
      else None
  }

  // -------------------------------------------------------------- round trip

  /** What follows a field inside a file. */
  predicate Stops(rest: string) {
    rest == [] || rest[0] == ',' || rest[0] == '\r'
  }

  /** The text reads back as the field, whatever file follows it. */
  ghost predicate Prints(text: string, field: Field) {
    forall rest: string :: Stops(rest) ==> ParseField(text + rest) == Done(field, rest)
  }

  function FieldOf(value: Cell): Field {
    if value.None? then Bare("") else Quoted(value.value)
  }

  lemma {:induction false} QuotedReadsBack(text: string, rest: string)
    requires rest == [] || rest[0] != '"'
    ensures ParseQuoted(DoubleQuotes(text) + "\"" + rest) == Done(text, rest)
  {
    if text == [] {
      assert DoubleQuotes(text) + "\"" + rest == ['"'] + rest;
      assert (['"'] + rest)[1..] == rest;
    } else {
      QuotedReadsBack(text[1..], rest);
      var tail := DoubleQuotes(text[1..]) + "\"" + rest;
      if text[0] == '"' {
        assert DoubleQuotes(text) + "\"" + rest == ['"', '"'] + tail;
        assert (['"', '"'] + tail)[2..] == tail;
      } else {
        assert DoubleQuotes(text) + "\"" + rest == [text[0]] + tail;
        assert ([text[0]] + tail)[1..] == tail;
      }
      assert text == [text[0]] + text[1..];
    }
  }

  lemma QuotedField(body: string, text: string, rest: string)
    requires ParseQuoted(body) == Done(text, rest)
    ensures ParseField(['"'] + body) == Done(Quoted(text), rest)
  {
    assert (['"'] + body)[1..] == body;
  }

  lemma EscapeReadsBack(value: Cell, rest: string)
    requires Stops(rest)
    ensures ParseField(Escape(value) + rest) == Done(FieldOf(value), rest)
  {
    if value.None? {
      assert Escape(value) + rest == rest;
    } else {
      var body := DoubleQuotes(value.value) + "\"" + rest;
      QuotedReadsBack(value.value, rest);
      QuotedField(body, value.value, rest);
      assert Escape(value) + rest == ['"'] + body;
    }
  }

  lemma EscapePrints(value: Cell)
    ensures Prints(Escape(value), FieldOf(value))
  {
    forall rest: string | Stops(rest)
      ensures ParseField(Escape(value) + rest) == Done(FieldOf(value), rest)
    {
      EscapeReadsBack(value, rest);
    }
  }

  lemma {:induction false} BareReadsBack(text: string, rest: string)
    requires forall c :: c in text ==> IsText(c)
    requires Stops(rest)
    ensures ParseBare(text + rest) == Done(text, rest)
  {
    if text == [] {
      assert text + rest == rest;
    } else {
      BareReadsBack(text[1..], rest);
      assert (text + rest)[1..] == text[1..] + rest;
      assert text == [text[0]] + text[1..];
    }
  }

  lemma PlainPrints(text: string)
    requires forall c :: c in text ==> IsText(c)
    ensures Prints(text, Bare(text))
  {
    forall rest: string | Stops(rest) ensures ParseField(text + rest) == Done(Bare(text), rest) {
      BareReadsBack(text, rest);
      if text != [] { assert (text + rest)[0] == text[0]; } else { assert text + rest == rest; }
    }
  }

  lemma RecordStep(text: string, field: Field, more: string, fields: seq<Field>, after: string)
    requires Prints(text, field)
    requires ParseRecord(more) == Done(fields, after)
    ensures ParseRecord(text + ([','] + more)) == Done([field] + fields, after)
  {
    assert ParseField(text + ([','] + more)) == Done(field, [','] + more);
    assert ([','] + more)[1..] == more;
  }

  lemma LastField(text: string, field: Field, rest: string)
    requires Prints(text, field)
    requires rest == [] || rest[0] == '\r'
    ensures ParseRecord(text + rest) == Done([field], rest)
  {
    assert ParseField(text + rest) == Done(field, rest);
  }

  lemma {:induction false} RecordReadsBack(texts: seq<string>, fields: seq<Field>, rest: string)
    requires |texts| == |fields| > 0
    requires forall i :: 0 <= i < |texts| ==> Prints(texts[i], fields[i])
    requires rest == [] || rest[0] == '\r'
    ensures ParseRecord(Join(texts, ",") + rest) == Done(fields, rest)
    decreases |texts|
  {
    if |texts| == 1 {
      LastField(texts[0], fields[0], rest);
      assert fields == [fields[0]];
    } else {
      var more := Join(texts[1..], ",") + rest;
      RecordReadsBack(texts[1..], fields[1..], rest);
      RecordStep(texts[0], fields[0], more, fields[1..], rest);
      JoinCons(texts, ",", rest);
      assert fields == [fields[0]] + fields[1..];
    }
  }

  lemma JoinCons(parts: seq<string>, separator: string, rest: string)
    requires |parts| >= 2
    ensures Join(parts, separator) + rest == parts[0] + (separator + (Join(parts[1..], separator) + rest))
  {
  }

  lemma FileStep(line: string, record: seq<Field>, more: string, records: seq<seq<Field>>)
    requires LineReads(line, record)
    requires more != [] && ParseFile(more) == Some(records)
    ensures ParseFile(line + (CRLF + more)) == Some([record] + records)
  {
    assert ParseRecord(line + (CRLF + more)) == Done(record, CRLF + more);
    assert (CRLF + more)[..2] == CRLF && (CRLF + more)[2..] == more;
  }

  lemma LastLine(line: string, record: seq<Field>)
    requires LineReads(line, record)
    ensures ParseFile(line) == Some([record])
  {
    assert line + [] == line;
    assert ParseRecord(line + []) == Done(record, []);
  }

  lemma {:induction false} FileReadsBack(lines: seq<string>, records: seq<seq<Field>>)
    requires |lines| == |records| > 0
    requires forall i :: 0 <= i < |lines| ==> LineReads(lines[i], records[i])
    ensures ParseFile(Join(lines, CRLF)) == Some(records) && Join(lines, CRLF) != []
    decreases |lines|
  {
    if |lines| == 1 {
      LastLine(lines[0], records[0]);
      assert records == [records[0]];
    } else {
      var more := Join(lines[1..], CRLF);
      FileReadsBack(lines[1..], records[1..]);
      FileStep(lines[0], records[0], more, records[1..]);
      JoinCons(lines, CRLF, []);
      assert more + [] == more;
      assert Join(lines, CRLF) + [] == Join(lines, CRLF);
      assert records == [records[0]] + records[1..];
    }
  }

  /** A non-empty line that reads back as a record, whatever line follows. */
  ghost predicate LineReads(line: string, record: seq<Field>) {
    && line != []
    && forall rest: string :: rest == [] || rest[0] == '\r' ==> ParseRecord(line + rest) == Done(record, rest)
  }

  function HeaderRecord(): (record: seq<Field>)
    ensures |record| == |HEADERS|
  {
    seq(|HEADERS|, i requires 0 <= i < |HEADERS| => Bare(HEADERS[i]))
  }

  function RecordOf(row: AuditRow): (record: seq<Field>)
    ensures |record| == |HEADERS|
    ensures forall i :: 0 <= i < |HEADERS| ==> record[i] == FieldOf(CellAt(row, HEADERS[i]))
  {
    seq(|HEADERS|, i requires 0 <= i < |HEADERS| => FieldOf(CellsOf(row)[i]))
  }

  function Records(rows: seq<AuditRow>): (records: seq<seq<Field>>)
    ensures |records| == |rows| && forall i :: 0 <= i < |rows| ==> records[i] == RecordOf(rows[i])
  {
    seq(|rows|, i requires 0 <= i < |rows| => RecordOf(rows[i]))
  }

  lemma HeaderLineReads()
    ensures LineReads(Join(HEADERS, ","), HeaderRecord())
  {
    forall i | 0 <= i < |HEADERS| ensures Prints(HEADERS[i], HeaderRecord()[i]) {
      PlainPrints(HEADERS[i]);
    }
    forall rest: string | rest == [] || rest[0] == '\r'
      ensures ParseRecord(Join(HEADERS, ",") + rest) == Done(HeaderRecord(), rest)
    {
      RecordReadsBack(HEADERS, HeaderRecord(), rest);
    }
  }

  lemma RowLineReads(row: AuditRow)
    ensures LineReads(RowLine(row), RecordOf(row))
  {
    var texts := Escaped(CellsOf(row));
    forall i | 0 <= i < |texts| ensures Prints(texts[i], RecordOf(row)[i]) {
      EscapePrints(CellsOf(row)[i]);
    }
    forall rest: string | rest == [] || rest[0] == '\r'
      ensures ParseRecord(Join(texts, ",") + rest) == Done(RecordOf(row), rest)
    {
      RecordReadsBack(texts, RecordOf(row), rest);
    }
    assert Join(texts, ",") == texts[0] + "," + Join(texts[1..], ",");
  }

  /** The lines of the file, before they are joined. */
  function Lines(rows: seq<AuditRow>): (lines: seq<string>)
    ensures |lines| == |rows| + 1
  {
    if rows == [] then [Join(HEADERS, ",")]
    else Lines(rows[..|rows| - 1]) + [RowLine(rows[|rows| - 1])]
  }

  function RowLine(row: AuditRow): string {
    Join(Escaped(CellsOf(row)), ",")
  }

  lemma {:induction false} LinesRead(rows: seq<AuditRow>)
    ensures forall i :: 0 <= i <= |rows| ==> LineReads(Lines(rows)[i], ([HeaderRecord()] + Records(rows))[i])
  {
    var records := [HeaderRecord()] + Records(rows);
    if rows == [] {
      HeaderLineReads();
    } else {
      var before := rows[..|rows| - 1];
      LinesRead(before);
      RowLineReads(rows[|rows| - 1]);
      forall i | 0 <= i <= |rows| ensures LineReads(Lines(rows)[i], records[i]) {
        if i < |rows| {
          assert Lines(rows)[i] == Lines(before)[i];
          assert records[i] == ([HeaderRecord()] + Records(before))[i];
        }
      }
    }
  }

  function ToCsvText(rows: seq<AuditRow>): string {
    [BOM] + Join(Lines(rows), CRLF)
  }

  /** After the byte order mark, RFC 4180 recovers the header and every cell. */
  lemma CsvRoundTrip(rows: seq<AuditRow>)
    ensures ToCsvText(rows)[0] == BOM
    ensures ParseFile(ToCsvText(rows)[1..]) == Some([HeaderRecord()] + Records(rows))
  {
    LinesRead(rows);
    FileReadsBack(Lines(rows), [HeaderRecord()] + Records(rows));
  }

  /** The header is bare; a cell is the quoted text under its column, and bare and empty if there is none. */
  lemma RecordsHoldCells(rows: seq<AuditRow>, i: nat, j: nat)
    requires i < |rows| && j < |HEADERS|
    ensures |Records(rows)| == |rows| && |Records(rows)[i]| == |HEADERS|
    ensures HeaderRecord()[j] == Bare(HEADERS[j])
    ensures Records(rows)[i][j] ==
            if HEADERS[j] in rows[i] && rows[i][HEADERS[j]].Some? then Quoted(rows[i][HEADERS[j]].value) else Bare("")
  {
  }

  /** The export builds its lines one row at a time; a parser reads the grid back. */
  method ToCsv(rows: seq<AuditRow>) returns (csv: string)
    ensures csv == ToCsvText(rows)
    ensures csv != [] && csv[0] == BOM
    ensures ParseFile(csv[1..]) == Some([HeaderRecord()] + Records(rows))
  {
    var lines := [Join(HEADERS, ",")];
    for n := 0 to |rows|
      invariant lines == Lines(rows[..n])
    {
      assert rows[..n + 1][..n] == rows[..n];
      lines := lines + [RowLine(rows[n])];
    }
    assert rows[..|rows|] == rows;
    csv := [BOM] + Join(lines, CRLF);
    CsvRoundTrip(rows);
  }

  /** Two exports are the same file exactly when every exported cell is the same. */
  lemma CsvDeterminesCells(a: seq<AuditRow>, b: seq<AuditRow>)
    ensures ToCsvText(a) == ToCsvText(b) <==>
            (|a| == |b| && forall i :: 0 <= i < |a| ==> CellsOf(a[i]) == CellsOf(b[i]))
  {
    if ToCsvText(a) == ToCsvText(b) {
      CsvRoundTrip(a);
      CsvRoundTrip(b);
      SameGridSameCells(a, b);
    } else if |a| == |b| && forall i :: 0 <= i < |a| ==> CellsOf(a[i]) == CellsOf(b[i]) {
      SameCellsSameLines(a, b);
    }
  }

  lemma SameGridSameCells(a: seq<AuditRow>, b: seq<AuditRow>)
    requires [HeaderRecord()] + Records(a) == [HeaderRecord()] + Records(b)
    ensures |a| == |b| && forall i :: 0 <= i < |a| ==> CellsOf(a[i]) == CellsOf(b[i])
  {
    var ra, rb := [HeaderRecord()] + Records(a), [HeaderRecord()] + Records(b);
    assert |ra| == |rb|;
    forall i | 0 <= i < |a| ensures CellsOf(a[i]) == CellsOf(b[i]) {
      assert ra[i + 1] == RecordOf(a[i]) && rb[i + 1] == RecordOf(b[i]);
      SameRecordSameCells(a[i], b[i]);
    }
  }

  lemma {:induction false} SameCellsSameLines(a: seq<AuditRow>, b: seq<AuditRow>)
    requires |a| == |b| && forall i :: 0 <= i < |a| ==> CellsOf(a[i]) == CellsOf(b[i])
    ensures Lines(a) == Lines(b)
  {
    if a != [] {
      SameCellsSameLines(a[..|a| - 1], b[..|b| - 1]);
      assert CellsOf(a[|a| - 1]) == CellsOf(b[|a| - 1]);
    }
  }

  /** Null is printed bare and text quoted, so a record determines its cells. */
  lemma SameRecordSameCells(a: AuditRow, b: AuditRow)
    requires RecordOf(a) == RecordOf(b)
    ensures CellsOf(a) == CellsOf(b)
  {
    forall i | 0 <= i < |HEADERS| ensures CellsOf(a)[i] == CellsOf(b)[i] {
      assert RecordOf(a)[i] == FieldOf(CellsOf(a)[i]);
      assert RecordOf(b)[i] == FieldOf(CellsOf(b)[i]);
    }
  }
}
