/** The CSV export, against a parser of section 2 of RFC 4180. */
module Csv {
  import opened Prelude

  //// The writer

  predicate StartsFormula(s: string) {
    s != "" && s[0] in {'=', '+', '-', '@', '\t', '\r'}
  }

  /** A text that a spreadsheet would execute gets an apostrophe in front. */
  function Guard(value: string): (safe: string)
    ensures !StartsFormula(safe)
    ensures safe == value <==> !StartsFormula(value)
  {
    if StartsFormula(value) then ['\''] + value else value
  }

  predicate IsSpecial(c: char) {
    c == '"' || c == ',' || c == '\r' || c == '\n'
  }

  predicate NeedsQuotes(s: string) {
    exists i :: 0 <= i < |s| && IsSpecial(s[i])
  }

  /** Every quote doubled. */
  function Escape(s: string): string {
    if s == "" then ""
    else (if s[0] == '"' then ['"', '"'] else [s[0]]) + Escape(s[1..])
  }

  function CsvCell(value: string): string {
    var safe := Guard(value);
    if NeedsQuotes(safe) then ['"'] + Escape(safe) + ['"'] else safe
  }

  function Join(parts: seq<string>, separator: string): string {
    if parts == [] then ""
    else if |parts| == 1 then parts[0]
    else parts[0] + separator + Join(parts[1..], separator)
  }

  const CRLF := ['\r', '\n']

  function Line(row: seq<string>): string {
    Join(seq(|row|, i requires 0 <= i < |row| => CsvCell(row[i])), ",")
  }

  function ToCsv(rows: seq<seq<string>>): string {
    Join(seq(|rows|, i requires 0 <= i < |rows| => Line(rows[i])), CRLF) + CRLF
  }

  //// The parser

  datatype Parsed<T> = Parsed(value: T, rest: string)

  /** The inside of a quoted field, up to and including the closing quote. */
  function ParseQuoted(s: string): (r: Option<Parsed<string>>)
    ensures r.Some? ==> |r.value.rest| < |s|
  {
    if s == "" then None
    else if s[0] != '"' then
      match ParseQuoted(s[1..])
      case None => None
      case Some(p) => Some(Parsed([s[0]] + p.value, p.rest))
    else if |s| > 1 && s[1] == '"' then
      match ParseQuoted(s[2..])
      case None => None
      case Some(p) => Some(Parsed(['"'] + p.value, p.rest))
    else Some(Parsed("", s[1..]))
  }

  /** The longest run of ordinary characters. */
  function ParsePlain(s: string): (p: Parsed<string>)
    ensures |p.rest| <= |s|
  {
    if s == "" || IsSpecial(s[0]) then Parsed("", s)
    else
      var p := ParsePlain(s[1..]);
      Parsed([s[0]] + p.value, p.rest)
  }

  function ParseField(s: string): (r: Option<Parsed<string>>)
    ensures r.Some? ==> |r.value.rest| <= |s|
  {
    if s != "" && s[0] == '"' then ParseQuoted(s[1..]) else Some(ParsePlain(s))
  }

  function ParseRecord(s: string): (r: Option<Parsed<seq<string>>>)
    ensures r.Some? ==> |r.value.rest| <= |s|
    decreases |s|
  {
    match ParseField(s)
    case None => None
    case Some(field) =>
      if field.rest != "" && field.rest[0] == ',' then
        match ParseRecord(field.rest[1..])
        case None => None
        case Some(others) => Some(Parsed([field.value] + others.value, others.rest))
      else Some(Parsed([field.value], field.rest))
  }

  /** Records separated by line breaks; the last one may have one too. */
  function Parse(s: string): Option<seq<seq<string>>>
    decreases |s|
  {
    match ParseRecord(s)
    case None => None
    case Some(record) =>
      if record.rest == "" || record.rest == CRLF then Some([record.value])
      else if CRLF <= record.rest then
        match Parse(record.rest[2..])
        case None => None
        case Some(others) => Some([record.value] + others)
      else None
  }

  //// Parsing undoes writing, field by field

  lemma {:induction false} ParseEscaped(s: string, tail: string)
    requires tail == "" || tail[0] != '"'
    ensures ParseQuoted(Escape(s) + ['"'] + tail) == Some(Parsed(s, tail))
  {
    var text := Escape(s) + ['"'] + tail;
    if s == "" {
      assert text == ['"'] + tail;
      assert text[1..] == tail;
    } else {
      var head := if s[0] == '"' then ['"', '"'] else [s[0]];
      assert text == head + (Escape(s[1..]) + ['"'] + tail);
      assert text[|head|..] == Escape(s[1..]) + ['"'] + tail;
      ParseEscaped(s[1..], tail);
      assert [s[0]] + s[1..] == s;
    }
  }

  lemma {:induction false} ParseOrdinary(s: string, tail: string)
    requires !NeedsQuotes(s)
    requires tail == "" || IsSpecial(tail[0])
    ensures ParsePlain(s + tail) == Parsed(s, tail)
  {
    if s == "" {
      assert s + tail == tail;
    } else {
      assert (s + tail)[1..] == s[1..] + tail;
      assert !IsSpecial(s[0]);
      assert forall i | 0 <= i < |s[1..]| :: s[1..][i] == s[i + 1];
      ParseOrdinary(s[1..], tail);
      assert [s[0]] + s[1..] == s;
    }
  }

  /** What may follow a field: a comma or a line break. */
  predicate EndsField(tail: string) {
    tail != "" && (tail[0] == ',' || tail[0] == '\r')
  }

  lemma {:induction false} ParseCell(value: string, tail: string)
    requires EndsField(tail)
    ensures ParseField(CsvCell(value) + tail) == Some(Parsed(Guard(value), tail))
  {
    var safe := Guard(value);
    if NeedsQuotes(safe) {
      ParseQuotedCell(safe, tail);
    } else {
      ParseOrdinary(safe, tail);
      if safe == "" {
        assert safe + tail == tail;
      } else {
        assert !IsSpecial(safe[0]);
      }
    }
  }

  lemma {:induction false} ParseQuotedCell(safe: string, tail: string)
    requires tail != "" && tail[0] != '"'
    ensures ParseField((['"'] + Escape(safe) + ['"']) + tail) == Some(Parsed(safe, tail))
  {
    var text := (['"'] + Escape(safe) + ['"']) + tail;
    assert text[1..] == Escape(safe) + ['"'] + tail;
    ParseEscaped(safe, tail);
  }

  //// Rows and tables

  function Guarded(row: seq<string>): (r: seq<string>)
    ensures |r| == |row|
    ensures forall i | 0 <= i < |r| :: !StartsFormula(r[i])
  {
    seq(|row|, i requires 0 <= i < |row| => Guard(row[i]))
  }

  /** A row without cells and a row with one empty cell are the same line. */
  function NormalRow(row: seq<string>): seq<string> {
    if row == [] then [""] else Guarded(row)
  }

  function NormalTable(rows: seq<seq<string>>): seq<seq<string>> {
    if rows == [] then [[""]] else seq(|rows|, i requires 0 <= i < |rows| => NormalRow(rows[i]))
  }

  lemma {:induction false} LineOfRest(row: seq<string>)
    requires |row| >= 2
    ensures Line(row) == CsvCell(row[0]) + "," + Line(row[1..])
  {
    var cells := seq(|row|, i requires 0 <= i < |row| => CsvCell(row[i]));
    assert cells[1..] == seq(|row[1..]|, i requires 0 <= i < |row[1..]| => CsvCell(row[1..][i]));
  }

  lemma {:induction false} NextField(text: string, field: string, after: string, others: seq<string>, tail: string)
    requires ParseField(text) == Some(Parsed(field, after))
    requires after != "" && after[0] == ','
    requires ParseRecord(after[1..]) == Some(Parsed(others, tail))
    ensures ParseRecord(text) == Some(Parsed([field] + others, tail))
  {
  }

  lemma {:induction false} Regroup(a: string, b: string, c: string, d: string)
    ensures (a + b + c) + d == a + (b + c + d)
  {
  }

  lemma {:induction false} ParseLongLine(cell: string, field: string, line: string, others: seq<string>, tail: string)
    requires ParseField(cell + ("," + line + tail)) == Some(Parsed(field, "," + line + tail))
    requires ParseRecord(line + tail) == Some(Parsed(others, tail))
    ensures ParseRecord((cell + "," + line) + tail) == Some(Parsed([field] + others, tail))
  {
    var after := "," + line + tail;
    Regroup(cell, ",", line, tail);
    assert after[1..] == line + tail;
    NextField(cell + after, field, after, others, tail);
  }

  lemma {:induction false} ParseLine(row: seq<string>, tail: string)
    requires CRLF <= tail && row != []
    ensures ParseRecord(Line(row) + tail) == Some(Parsed(Guarded(row), tail))
  {
    if |row| == 1 {
      ParseCell(row[0], tail);
      assert Guarded(row) == [Guard(row[0])];
    } else {
      var line := Line(row[1..]);
      LineOfRest(row);
      ParseCell(row[0], "," + line + tail);
      ParseLine(row[1..], tail);
      ParseLongLine(CsvCell(row[0]), Guard(row[0]), line, Guarded(row[1..]), tail);
      assert Guarded(row) == [Guard(row[0])] + Guarded(row[1..]);
    }
  }

  lemma {:induction false} ParseNormalLine(row: seq<string>, tail: string)
    requires CRLF <= tail
    ensures ParseRecord(Line(row) + tail) == Some(Parsed(NormalRow(row), tail))
  {
    if row == [] {
      assert Line(row) + tail == tail;
    } else {
      ParseLine(row, tail);
    }
  }

  lemma {:induction false} TableOfRest(rows: seq<seq<string>>)
    requires |rows| >= 2
    ensures ToCsv(rows) == Line(rows[0]) + (CRLF + ToCsv(rows[1..]))
  {
    var lines := seq(|rows|, i requires 0 <= i < |rows| => Line(rows[i]));
    assert lines[1..] == seq(|rows[1..]|, i requires 0 <= i < |rows[1..]| => Line(rows[1..][i]));
  }

  lemma {:induction false} NextRecord(text: string, record: seq<string>, after: string, others: seq<seq<string>>)
    requires ParseRecord(text) == Some(Parsed(record, CRLF + after))
    requires after != "" && Parse(after) == Some(others)
    ensures Parse(text) == Some([record] + others)
  {
    assert (CRLF + after)[2..] == after;
  }

  lemma {:induction false} ParseLastRow(row: seq<string>)
    ensures Parse(Line(row) + CRLF) == Some([NormalRow(row)])
  {
    ParseNormalLine(row, CRLF);
  }

  lemma {:induction false} ParseMoreRows(row: seq<string>, after: string, others: seq<seq<string>>)
    requires after != "" && Parse(after) == Some(others)
    ensures Parse(Line(row) + (CRLF + after)) == Some([NormalRow(row)] + others)
  {
    ParseNormalLine(row, CRLF + after);
    NextRecord(Line(row) + (CRLF + after), NormalRow(row), after, others);
  }

  lemma {:induction false} NormalTableOfRest(rows: seq<seq<string>>)
    requires |rows| >= 2
    ensures NormalTable(rows) == [NormalRow(rows[0])] + NormalTable(rows[1..])
  {
  }

  /** Parsing gives back the guarded cells; only missing rows and cells read as one empty cell. */
  lemma {:induction false} ParseUndoesWrite(rows: seq<seq<string>>)
    ensures Parse(ToCsv(rows)) == Some(NormalTable(rows))
  {
    if |rows| <= 1 {
      var row := if rows == [] then [] else rows[0];
      assert ToCsv(rows) == Line(row) + CRLF;
      assert NormalTable(rows) == [NormalRow(row)];
      ParseLastRow(row);
    } else {
      ParseUndoesWrite(rows[1..]);
      ParseMoreRows(rows[0], ToCsv(rows[1..]), NormalTable(rows[1..]));
      TableOfRest(rows);
      NormalTableOfRest(rows);
    }
  }

  function GuardedTable(rows: seq<seq<string>>): seq<seq<string>> {
    seq(|rows|, i requires 0 <= i < |rows| => Guarded(rows[i]))
  }

  /** The export round-trips to the guarded cells exactly for non-empty tables of non-empty rows. */
  lemma {:induction false} RoundTripExactly(rows: seq<seq<string>>)
    ensures Parse(ToCsv(rows)) == Some(GuardedTable(rows))
       <==> rows != [] && forall i | 0 <= i < |rows| :: rows[i] != []
  {
    ParseUndoesWrite(rows);
    if rows != [] {
      var normal, guarded := NormalTable(rows), GuardedTable(rows);
      if i :| 0 <= i < |rows| && rows[i] == [] {
        assert |normal[i]| != |guarded[i]|;
      } else {
        assert normal == guarded;
      }
    }
  }

  /** The table without rows is a line break, which reads as a row with one empty cell. */
  lemma EmptyTableReadsAsCell()
    ensures ToCsv([]) == ['\r', '\n'] && Parse(ToCsv([])) == Some([[""]])
  {
    ParseUndoesWrite([]);
  }

  //// What a spreadsheet sees

  /** What the reader of the export gets for a cell: the text, or the text behind an apostrophe if it could be executed. */
  lemma {:induction false} GuardedCell(value: string)
    ensures Guard(value)
         == if value != "" && value[0] in {'=', '+', '-', '@', '\t', '\r'} then ['\''] + value else value
    ensures Guard(value) == "" || Guard(value)[0] !in {'=', '+', '-', '@', '\t', '\r'}
  {
  }

  /** Every cell that the reader of an export gets is such a text, so none begins with one of the six characters. */
  lemma {:induction false} ParsedCellsAreSafe(rows: seq<seq<string>>, i: nat, j: nat)
    requires i < |rows| && j < |rows[i]|
    ensures Parse(ToCsv(rows)).Some?
    ensures var table := Parse(ToCsv(rows)).value;
            && |table| == |rows| && |table[i]| == |rows[i]|
            && (table[i][j] == "" || table[i][j][0] !in {'=', '+', '-', '@', '\t', '\r'})
            && table[i][j] == if rows[i][j] != "" && rows[i][j][0] in {'=', '+', '-', '@', '\t', '\r'}
                              then ['\''] + rows[i][j] else rows[i][j]
  {
    ParseUndoesWrite(rows);
    GuardedCell(rows[i][j]);
  }

  predicate HoldsSpecial(value: string) {
    '"' in value || ',' in value || '\r' in value || '\n' in value
  }

  lemma {:induction false} SpecialIsHeld(value: string)
    ensures NeedsQuotes(value) <==> HoldsSpecial(value)
  {
    if i :| 0 <= i < |value| && IsSpecial(value[i]) {
      assert value[i] in value;
    }
  }

  /** The apostrophe in front does not matter for quoting. */
  lemma {:induction false} GuardKeepsSpecial(value: string)
    ensures HoldsSpecial(Guard(value)) <==> HoldsSpecial(value)
  {
  }

  /** A cell is quoted exactly when it holds a quote, a comma or a line break; any other is written as it is. */
  lemma {:induction false} QuotedExactly(value: string)
    ensures HoldsSpecial(value) ==> |CsvCell(value)| >= 2 && CsvCell(value)[0] == '"'
    ensures !HoldsSpecial(value) ==> CsvCell(value) == Guard(value)
  {
    GuardKeepsSpecial(value);
    SpecialIsHeld(Guard(value));
  }
}
