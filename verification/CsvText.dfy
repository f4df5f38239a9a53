/** Cell escaping and RFC 4180 text, written and read back. */
module CsvText {
  import opened Domain

  // ------------------------------------------------------------ formula escape

  /** Control characters other than tab, CR and LF, plus DEL. */
  predicate Control(c: char) {
    (c as int < 0x20 && c != '\t' && c != '\r' && c != '\n') || c as int == 0x7F
  }

  predicate Trigger(c: char) {
    c == '=' || c == '+' || c == '-' || c == '@' || c == '\t' || c == '\r'
  }

  /** `str.translate` with the deletion table. */
  function Strip(s: string): (r: string)
    ensures forall c :: c in r ==> !Control(c)
  {
    if |s| == 0 then ""
    else if Control(s[0]) then Strip(s[1..])
    else [s[0]] + Strip(s[1..])
  }

  predicate Triggered(s: string) {
    |s| > 0 && Trigger(s[0])
  }

  function EscapeCsvTextCell(value: string): string {
    if |value| == 0 then value
    else
      var cleaned := Strip(value);
      if Triggered(cleaned) then "'" + cleaned else cleaned
  }

  lemma {:induction false} StripKeepsClean(s: string)
    requires forall c :: c in s ==> !Control(c)
    ensures Strip(s) == s
  {
    if |s| > 0 {
      StripKeepsClean(s[1..]);
    }
  }

  /** Stripping works character by character and takes out exactly the codes 0 to 31
      but 9, 10 and 13, and 127. */
  lemma {:induction false} StripIsCharacterwise(s: string, t: string)
    ensures Strip(s + t) == Strip(s) + Strip(t)
    ensures |s| == 1 ==>
      var code := s[0] as int;
      Strip(s) == if (code < 32 && code != 9 && code != 10 && code != 13) || code == 127 then "" else s
  {
    if |s| == 0 {
      assert s + t == t;
    } else {
      assert (s + t)[1..] == s[1..] + t;
      StripIsCharacterwise(s[1..], t);
    }
  }

  /** An escaped cell never starts with one of the six characters a spreadsheet takes
      for a formula, holds no stripped control character, and escapes to itself; a
      cell that would start with one is prefixed by an apostrophe, any other is only
      stripped. */
  lemma EscapeIsSafeAndIdempotent(value: string)
    ensures var e := EscapeCsvTextCell(value);
            && (|e| > 0 ==> e[0] != '=' && e[0] != '+' && e[0] != '-' && e[0] != '@' && e[0] != '\t' && e[0] != '\r')
            && (forall c :: c in e ==> !Control(c))
            && EscapeCsvTextCell(e) == e
            && (e == Strip(value) ||
                (e == "'" + Strip(value) && Strip(value)[..1] in ["=", "+", "-", "@", "\t", "\r"]))
  {
    var e := EscapeCsvTextCell(value);
    StripKeepsClean(e);
    if Triggered(Strip(value)) {
      assert Strip(value)[..1] == [Strip(value)[0]];
    }
  }

  /** What two cells that escape alike have in common: the same text after
      stripping, or one is the quoted form of the other. */
  lemma EscapeCollisions(a: string, b: string)
    ensures EscapeCsvTextCell(a) == EscapeCsvTextCell(b) <==>
              || Strip(a) == Strip(b)
              || (Triggered(Strip(a)) && Strip(b) == "'" + Strip(a))
              || (Triggered(Strip(b)) && Strip(a) == "'" + Strip(b))
  {
    assert ("'" + Strip(a))[1..] == Strip(a);
    assert ("'" + Strip(b))[1..] == Strip(b);
  }

  /** The characters `CustomerId` and `Metric` accept. */
  predicate IngestChar(c: char) {
    'A' <= c <= 'Z' || 'a' <= c <= 'z' || '0' <= c <= '9' || c == '_' || c == '.' || c == ':' || c == '-'
  }

  ghost predicate Ingested(s: string) {
    forall c :: c in s ==> IngestChar(c)
  }

  /** On identifiers the ingest schema accepts, escaping loses nothing. */
  lemma EscapeIsInjectiveOnIngested(a: string, b: string)
    requires Ingested(a) && Ingested(b) && EscapeCsvTextCell(a) == EscapeCsvTextCell(b)
    ensures a == b
  {
    StripKeepsClean(a);
    StripKeepsClean(b);
    EscapeCollisions(a, b);
    if |a| > 0 && a[0] == '\'' { assert a[0] in a; }
    if |b| > 0 && b[0] == '\'' { assert b[0] in b; }
  }

  // ------------------------------------------------- csv.writer, QUOTE_MINIMAL

  predicate Special(c: char) {
    c == ',' || c == '"' || c == '\r' || c == '\n'
  }

  predicate NeedsQuotes(cell: string) {
    exists i :: 0 <= i < |cell| && Special(cell[i])
  }

  function Doubled(cell: string): string {
    if |cell| == 0 then ""
    else (if cell[0] == '"' then "\"\"" else [cell[0]]) + Doubled(cell[1..])
  }

  function EncodeCell(cell: string): string {
    if NeedsQuotes(cell) then "\"" + Doubled(cell) + "\"" else cell
  }

  /** QUOTE_MINIMAL: a cell is written as it is unless it holds a comma, a double
      quote, a carriage return or a line feed, and in quotes if it does. */
  lemma QuotesOnlyIfNeeded(cell: string)
    ensures if ',' in cell || '"' in cell || '\r' in cell || '\n' in cell
            then |EncodeCell(cell)| >= |cell| + 2 && EncodeCell(cell)[0] == '"'
            else EncodeCell(cell) == cell
  {
    DoubledIsLonger(cell);
    if NeedsQuotes(cell) {
      var i :| 0 <= i < |cell| && Special(cell[i]);
      assert cell[i] in cell;
    }
  }

  lemma {:induction false} DoubledIsLonger(cell: string)
    ensures |Doubled(cell)| >= |cell|
  {
    if |cell| > 0 {
      DoubledIsLonger(cell[1..]);
    }
  }

  /** A record: at least one cell. */
  type CsvRow = cells: seq<string> | |cells| > 0 witness [""]

  function EncodeCells(cells: CsvRow): (text: string)
    ensures |text| >= 2
  {
    if |cells| == 1 then EncodeCell(cells[0]) + "\r\n"
    else EncodeCell(cells[0]) + "," + EncodeCells(cells[1..])
  }

  /** `writerow`; a lone empty cell is quoted so that the line is not blank. */
  function EncodeRow(cells: CsvRow): (text: string)
    ensures |text| >= 2
  {
    if cells == [""] then "\"\"\r\n" else EncodeCells(cells)
  }

  function EncodeRows(rows: seq<CsvRow>): string {
    if |rows| == 0 then "" else EncodeRow(rows[0]) + EncodeRows(rows[1..])
  }

  // --------------------------------------------------------- an RFC 4180 reader

  datatype Mode = AtStart | Plain | Quoted | QuoteSeen

  function Prepend(row: seq<string>, rows: Option<seq<seq<string>>>): Option<seq<seq<string>>> {
    match rows
    case Some(rs) => Some([row] + rs)
    case None => None
  }

  /** The records of `text` as section 2 of RFC 4180 delimits them: records end in
      CRLF, cells are separated by commas, a quoted cell may hold anything with its
      quotes doubled, and a bare quote, CR or LF in an unquoted cell is an error. */
  function Read(text: string, mode: Mode, cell: string, row: seq<string>): Option<seq<seq<string>>>
    decreases |text|, if mode == AtStart then 1 else 0
  {
    if |text| == 0 then (if mode == AtStart && row == [] then Some([]) else None)
    else
      var c, rest := text[0], text[1..];
      match mode
      case AtStart => if c == '"' then Read(rest, Quoted, "", row) else Read(text, Plain, "", row)
      case Quoted => if c == '"' then Read(rest, QuoteSeen, cell, row) else Read(rest, Quoted, cell + [c], row)
      case _ =>
        if c == ',' then Read(rest, AtStart, "", row + [cell])
        else if c == '\r' then
          (if |rest| > 0 && rest[0] == '\n' then Prepend(row + [cell], Read(rest[1..], AtStart, "", [])) else None)
        else if mode == QuoteSeen then (if c == '"' then Read(rest, Quoted, cell + [c], row) else None)
        else if c == '"' || c == '\n' then None
        else Read(rest, Plain, cell + [c], row)
  }

  function ReadCsv(text: string): Option<seq<seq<string>>> {
    Read(text, AtStart, "", [])
  }

  lemma {:induction false} ReadPlain(s: string, rest: string, cell: string, row: seq<string>)
    requires !NeedsQuotes(s)
    ensures Read(s + rest, Plain, cell, row) == Read(rest, Plain, cell + s, row)
    decreases |s|
  {
    if |s| == 0 {
      assert s + rest == rest && cell + s == cell;
    } else {
      assert !Special(s[0]);
      assert forall i :: 0 <= i < |s[1..]| ==> s[1..][i] == s[i + 1];
      assert (s + rest)[1..] == s[1..] + rest;
      ReadPlain(s[1..], rest, cell + [s[0]], row);
      assert cell + [s[0]] + s[1..] == cell + s;
    }
  }

  lemma {:induction false} ReadQuoted(s: string, rest: string, cell: string, row: seq<string>)
    ensures Read(Doubled(s) + "\"" + rest, Quoted, cell, row) == Read(rest, QuoteSeen, cell + s, row)
    decreases |s|
  {
    var text := Doubled(s) + "\"" + rest;
    if |s| == 0 {
      assert text == "\"" + rest && text[1..] == rest && cell + s == cell;
    } else {
      var tail := Doubled(s[1..]) + "\"" + rest;
      ReadQuoted(s[1..], rest, cell + [s[0]], row);
      assert cell + [s[0]] + s[1..] == cell + s;
      if s[0] == '"' {
        assert text == "\"\"" + tail;
        ReadDoubledQuote(tail, cell, row);
      } else {
        assert text == [s[0]] + tail && text[1..] == tail;
      }
    }
  }

  lemma ReadDoubledQuote(tail: string, cell: string, row: seq<string>)
    ensures Read("\"\"" + tail, Quoted, cell, row) == Read(tail, Quoted, cell + "\"", row)
  {
    var text := "\"\"" + tail;
    assert text[1..] == "\"" + tail && ("\"" + tail)[1..] == tail;
  }

  /** A separator: what follows a cell in the written text. */
  predicate Separates(after: string) {
    |after| > 0 && (after[0] == ',' || (after[0] == '\r' && |after| > 1 && after[1] == '\n'))
  }

  /** The state a finished cell is read in, quoted or not, makes no difference. */
  lemma EndOfCell(after: string, mode: Mode, cell: string, row: seq<string>)
    requires Separates(after) && (mode == Plain || mode == QuoteSeen)
    ensures Read(after, mode, cell, row) ==
            if after[0] == ',' then Read(after[1..], AtStart, "", row + [cell])
            else Prepend(row + [cell], Read(after[2..], AtStart, "", []))
  {
    assert after[0] == '\r' ==> after[1..][1..] == after[2..];
  }

  lemma CellStart(text: string, row: seq<string>)
    requires |text| > 0
    ensures Read(text, AtStart, "", row) ==
            if text[0] == '"' then Read(text[1..], Quoted, "", row) else Read(text, Plain, "", row)
  {
  }

  /** What is left to read once cell `s` is finished. */
  function AfterCell(s: string, after: string, row: seq<string>): Option<seq<seq<string>>>
    requires Separates(after)
  {
    if after[0] == ',' then Read(after[1..], AtStart, "", row + [s])
    else Prepend(row + [s], Read(after[2..], AtStart, "", []))
  }

  lemma ReadBareCell(s: string, after: string, row: seq<string>)
    requires Separates(after) && !NeedsQuotes(s)
    ensures Read(s + after, AtStart, "", row) == AfterCell(s, after, row)
  {
    var text := s + after;
    assert text[0] != '"' by {
      assert |s| > 0 ==> !Special(s[0]);
    }
    CellStart(text, row);
    ReadPlain(s, after, "", row);
    assert "" + s == s;
    EndOfCell(after, Plain, s, row);
  }

  lemma ReadQuotedCell(s: string, after: string, row: seq<string>)
    requires Separates(after)
    ensures Read("\"" + Doubled(s) + "\"" + after, AtStart, "", row) == AfterCell(s, after, row)
  {
    var text := "\"" + Doubled(s) + "\"" + after;
    CellStart(text, row);
    assert text[1..] == Doubled(s) + "\"" + after;
    ReadQuoted(s, after, "", row);
    assert "" + s == s;
    EndOfCell(after, QuoteSeen, s, row);
  }

  lemma ReadCell(s: string, after: string, row: seq<string>)
    requires Separates(after)
    ensures Read(EncodeCell(s) + after, AtStart, "", row) == AfterCell(s, after, row)
  {
    if NeedsQuotes(s) {
      ReadQuotedCell(s, after, row);
    } else {
      ReadBareCell(s, after, row);
    }
  }

  /** What is written after the first cell of a record. */
  function Following(cells: CsvRow, rest: string): (after: string)
    ensures Separates(after)
  {
    if |cells| == 1 then "\r\n" + rest else "," + (EncodeCells(cells[1..]) + rest)
  }

  lemma FirstCell(cells: CsvRow, rest: string)
    ensures EncodeCells(cells) + rest == EncodeCell(cells[0]) + Following(cells, rest)
  {
    if |cells| > 1 {
      assert "," + (EncodeCells(cells[1..]) + rest) == "," + EncodeCells(cells[1..]) + rest;
    }
  }

  lemma AfterComma(cells: CsvRow, rest: string, row: seq<string>)
    requires |cells| > 1
    ensures AfterCell(cells[0], Following(cells, rest), row)
            == Read(EncodeCells(cells[1..]) + rest, AtStart, "", row + [cells[0]])
  {
    var after := Following(cells, rest);
    assert after[0] == ',' && after[1..] == EncodeCells(cells[1..]) + rest;
  }

  lemma {:induction false} ReadCells(cells: CsvRow, rest: string, row: seq<string>)
    ensures Read(EncodeCells(cells) + rest, AtStart, "", row) == Prepend(row + cells, Read(rest, AtStart, "", []))
    decreases |cells|
  {
    FirstCell(cells, rest);
    ReadCell(cells[0], Following(cells, rest), row);
    if |cells| == 1 {
      assert Following(cells, rest)[2..] == rest;
      assert row + cells == row + [cells[0]];
    } else {
      AfterComma(cells, rest, row);
      ReadCells(cells[1..], rest, row + [cells[0]]);
      assert row + [cells[0]] + cells[1..] == row + cells;
    }
  }

  lemma ReadRow(cells: CsvRow, rest: string)
    ensures Read(EncodeRow(cells) + rest, AtStart, "", []) == Prepend(cells, Read(rest, AtStart, "", []))
  {
    if cells == [""] {
      var text, after := EncodeRow(cells) + rest, "\r\n" + rest;
      assert text == "\"" + ("\"" + after) && text[1..] == "\"" + after;
      assert ("\"" + after)[1..] == after && after[2..] == rest;
      EndOfCell(after, QuoteSeen, "", []);
      assert [] + [""] == cells;
    } else {
      ReadCells(cells, rest, []);
      assert [] + cells == cells;
    }
  }

  /** Round trip: reading the written text returns the rows, for arbitrary cells. */
  lemma {:induction false} CsvRoundTrip(rows: seq<CsvRow>)
    ensures ReadCsv(EncodeRows(rows)) == Some(rows)
    decreases |rows|
  {
    if |rows| > 0 {
      ReadRow(rows[0], EncodeRows(rows[1..]));
      CsvRoundTrip(rows[1..]);
      assert [rows[0]] + rows[1..] == rows;
    }
  }
}
