/** The CSV a usage export sends, and what can be read back from it. */
module ExportStream {
  import opened Domain
  import opened TimeWindows
  import opened Calendar
  import opened CivilTime
  import opened CsvText
  import opened DecimalText
  import opened ExportQuery
  import opened Batching

  const HEADER: CsvRow := ["customer_id", "metric", "window_start", "total_quantity"]

  /** What the columns can hold: a window on the hour in the range of dates, a
      non-negative total. */
  predicate Printable(r: ExportRow) {
    r.window % HOUR == 0 && 1 <= DayOf(r.window) <= Ordinal(LAST) && r.total >= 0
  }

  ghost predicate AllPrintable(rows: seq<ExportRow>) {
    forall i :: 0 <= i < |rows| ==> Printable(rows[i])
  }

  function CellsOf(r: ExportRow): CsvRow
    requires Printable(r)
  {
    [EscapeCsvTextCell(r.customer), EscapeCsvTextCell(r.metric),
     FormatWindowStart(r.window), FormatTotalQuantity(r.total)]
  }

  /** The cells of every row. */
  function Table(rows: seq<ExportRow>): seq<CsvRow>
    requires AllPrintable(rows)
  {
    seq(|rows|, i requires 0 <= i < |rows| => CellsOf(rows[i]))
  }

  /** Every record as the CSV writer encodes it. */
  function Lines(table: seq<CsvRow>): seq<Line> {
    seq(|table|, i requires 0 <= i < |table| => EncodeRow(table[i]))
  }

  /** `GET /v1/usage/export`: the records of the stream query as CSV. */
  method StreamExportCsv(rows: seq<ExportRow>, brk: Break) returns (chunks: seq<string>, audit: Audit)
    requires AllPrintable(rows) && |rows| <= MAX_EXPORT_ROWS
    ensures Streamed(chunks, audit, EncodeRow(HEADER), Lines(Table(rows)), brk)
  {
    chunks, audit := StreamLines(EncodeRow(HEADER), Lines(Table(rows)), brk);
  }

  lemma {:induction false} LinesAreRows(table: seq<CsvRow>)
    ensures Joined(Lines(table)) == EncodeRows(table)
    decreases |table|
  {
    if |table| > 0 {
      assert Lines(table)[1..] == Lines(table[1..]);
      LinesAreRows(table[1..]);
    }
  }

  /** A completed stream is the CSV text of header and rows, and an RFC 4180 reader
      gets back the header and exactly the cells of the rows. */
  lemma StreamRoundTrip(chunks: seq<string>, header: CsvRow, table: seq<CsvRow>)
    requires Chunked(chunks, EncodeRow(header), Lines(table), Batches(|table|))
    ensures Concat(chunks) == EncodeRows([header] + table)
    ensures ReadCsv(Concat(chunks)) == Some([header] + table)
  {
    CompletedStreamIsWhole(chunks, EncodeRow(header), Lines(table));
    LinesAreRows(table);
    var all: seq<CsvRow> := [header] + table;
    assert all[1..] == table;
    CsvRoundTrip(all);
  }

  /** `cell` is what the column named `column` shows of row `r`. */
  predicate ShowsCell(column: string, cell: string, r: ExportRow) {
    if column == "customer_id" then cell == EscapeCsvTextCell(r.customer)
    else if column == "metric" then cell == EscapeCsvTextCell(r.metric)
    else if column == "window_start" then ReadWindowStart(cell) == Some(r.window)
    else column == "total_quantity" && r.total >= 0 && ParseMicro(cell) == Some(r.total)
  }

  ghost predicate ShowsRow(columns: seq<string>, cells: seq<string>, r: ExportRow) {
    |cells| == |columns| && forall c :: 0 <= c < |columns| ==> ShowsCell(columns[c], cells[c], r)
  }

  /** An RFC 4180 reader finds in `text` a header of the four columns and then, in
      order, one record for each row, which shows the row under the column names. */
  ghost predicate ReadsAs(text: string, rows: seq<ExportRow>) {
    && ReadCsv(text).Some?
    && var table := ReadCsv(text).value;
       && |table| == |rows| + 1
       && table[0] == ["customer_id", "metric", "window_start", "total_quantity"]
       && forall i :: 0 <= i < |rows| ==> ShowsRow(table[0], table[i + 1], rows[i])
  }

  lemma CellsShow(r: ExportRow)
    requires Printable(r)
    ensures ShowsRow(HEADER, CellsOf(r), r)
  {
    WindowCell(r.window);
    TotalRoundTrip(r.total);
    var cells := CellsOf(r);
    forall c | 0 <= c < 4 ensures ShowsCell(HEADER[c], cells[c], r) {
    }
  }

  lemma WindowCell(w: int)
    requires w % HOUR == 0 && 1 <= DayOf(w) <= Ordinal(LAST)
    ensures ReadWindowStart(FormatWindowStart(w)) == Some(w)
  {
    assert HOUR == 3_600_000_000;
    WindowStartRoundTrip(w);
  }

  /** A completed stream shows every row, each value in the column of its name. */
  lemma StreamShowsRows(chunks: seq<string>, rows: seq<ExportRow>)
    requires AllPrintable(rows) && Chunked(chunks, EncodeRow(HEADER), Lines(Table(rows)), Batches(|rows|))
    ensures ReadsAs(Concat(chunks), rows)
  {
    StreamRoundTrip(chunks, HEADER, Table(rows));
    var table: seq<seq<string>> := [HEADER] + Table(rows);
    forall i | 0 <= i < |rows| ensures ShowsRow(table[0], table[i + 1], rows[i]) {
      assert table[i + 1] == Table(rows)[i] == CellsOf(rows[i]);
      CellsShow(rows[i]);
    }
  }

  ghost predicate AllIngested(rows: seq<ExportRow>) {
    forall i :: 0 <= i < |rows| ==> Ingested(rows[i].customer) && Ingested(rows[i].metric)
  }

  lemma CellsAreUnique(r: ExportRow, q: ExportRow)
    requires Printable(r) && Printable(q) && CellsOf(r) == CellsOf(q)
    requires Ingested(r.customer) && Ingested(r.metric) && Ingested(q.customer) && Ingested(q.metric)
    ensures r == q
  {
    var c, d := CellsOf(r), CellsOf(q);
    assert c[0] == d[0] && c[1] == d[1] && c[2] == d[2] && c[3] == d[3];
    EscapeIsInjectiveOnIngested(r.customer, q.customer);
    EscapeIsInjectiveOnIngested(r.metric, q.metric);
    WindowTextIsUnique(r.window, q.window);
    TotalRoundTrip(r.total);
    TotalRoundTrip(q.total);
  }

  lemma SameTables(rows: seq<ExportRow>, others: seq<ExportRow>)
    requires AllPrintable(rows) && AllPrintable(others) && AllIngested(rows) && AllIngested(others)
    requires Table(rows) == Table(others)
    ensures rows == others
  {
    assert |rows| == |Table(rows)| == |Table(others)| == |others|;
    forall i | 0 <= i < |rows| ensures rows[i] == others[i] {
      assert Table(rows)[i] == Table(others)[i];
      CellsAreUnique(rows[i], others[i]);
    }
  }

  /** Nothing is lost end to end: two completed exports of ingested rows with the
      same bytes, however chunked, are exports of the same rows in the same order. */
  lemma ExportDeterminesRows(rows: seq<ExportRow>, others: seq<ExportRow>,
                             chunks: seq<string>, otherChunks: seq<string>)
    requires AllPrintable(rows) && AllPrintable(others) && AllIngested(rows) && AllIngested(others)
    requires Chunked(chunks, EncodeRow(HEADER), Lines(Table(rows)), Batches(|rows|))
    requires Chunked(otherChunks, EncodeRow(HEADER), Lines(Table(others)), Batches(|others|))
    requires Concat(chunks) == Concat(otherChunks)
    ensures rows == others
  {
    var a, b := Table(rows), Table(others);
    StreamRoundTrip(chunks, HEADER, a);
    StreamRoundTrip(otherChunks, HEADER, b);
    assert ([HEADER] + a)[1..] == a && ([HEADER] + b)[1..] == b;
    SameTables(rows, others);
  }
}
