/** The batching loop of `stream_export_csv` over one reused buffer. */
module Batching {
  import opened Domain

  const MAX_EXPORT_ROWS: nat := 100_000

  /** An encoded record: it ends in a line break, so it is never empty. */
  type Line = s: string | |s| > 0 witness "x"

  function Joined(lines: seq<Line>): string {
    if |lines| == 0 then "" else lines[0] + Joined(lines[1..])
  }

  lemma {:induction false} JoinedAppend(xs: seq<Line>, ys: seq<Line>)
    ensures Joined(xs + ys) == Joined(xs) + Joined(ys)
    decreases |xs|
  {
    if |xs| == 0 {
      assert xs + ys == ys;
    } else {
      assert (xs + ys)[1..] == xs[1..] + ys;
      JoinedAppend(xs[1..], ys);
    }
  }

  /** Text of lines `lo` up to `hi`. */
  function Stretch(lines: seq<Line>, lo: nat, hi: nat): string
    requires lo <= hi <= |lines|
  {
    Joined(lines[lo..hi])
  }

  lemma StretchesJoin(lines: seq<Line>, lo: nat, mid: nat, hi: nat)
    requires lo <= mid <= hi <= |lines|
    ensures Stretch(lines, lo, hi) == Stretch(lines, lo, mid) + Stretch(lines, mid, hi)
  {
    var a, b := lines[lo..mid], lines[mid..hi];
    assert a + b == lines[lo..hi];
    JoinedAppend(a, b);
  }

  lemma StretchGrows(lines: seq<Line>, lo: nat, hi: nat)
    requires lo <= hi < |lines|
    ensures Stretch(lines, lo, hi + 1) == Stretch(lines, lo, hi) + lines[hi]
    ensures Stretch(lines, lo, lo) == ""
  {
    StretchesJoin(lines, lo, hi, hi + 1);
    assert lines[hi..hi + 1] == [lines[hi]];
    assert Joined([lines[hi]]) == lines[hi] + "";
  }

  lemma {:induction false} LongerStretch(lines: seq<Line>, lo: nat, hi: nat)
    requires lo < hi <= |lines|
    ensures |Stretch(lines, 0, lo)| < |Stretch(lines, 0, hi)|
    decreases hi
  {
    StretchGrows(lines, 0, hi - 1);
    if lo < hi - 1 {
      LongerStretch(lines, lo, hi - 1);
    }
  }

  /** The `io.StringIO` the CSV writer appends to. */
  class Buffer {
    var text: string

    constructor ()
      ensures text == ""
    {
      text := "";
    }

    method WriteRow(line: Line)
      modifies this
      ensures text == old(text) + line
    {
      text := text + line;
    }

    /** `_drain`: hand out the contents and reset the buffer in place. */
    method Drain() returns (data: string)
      modifies this
      ensures data == old(text) && text == ""
    {
      data := text;
      text := "";
    }
  }

  /** The `usage.export` audit record. */
  datatype Audit = Audit(rowCount: nat, capped: bool, completed: bool)

  /** Where batch `k` starts, with 1000 records to a full batch, or the end. */
  function Cut(n: nat, k: nat): (at: nat)
    ensures at <= n
  {
    if 1000 * k < n then 1000 * k else n
  }

  /** A first chunk, then the first `n` batches of the lines, one chunk each. Every
      batch has at least one record and at most 1000. */
  ghost predicate Chunked(chunks: seq<string>, header: Line, lines: seq<Line>, n: nat) {
    && |chunks| == 1 + n && chunks[0] == header
    && forall k :: 1 <= k <= n ==> IsBatch(chunks[k], lines, k - 1)
  }

  ghost predicate IsBatch(chunk: string, lines: seq<Line>, k: nat) {
    && 1 <= Cut(|lines|, k + 1) - Cut(|lines|, k) <= 1000
    && chunk == Stretch(lines, Cut(|lines|, k), Cut(|lines|, k + 1))
  }

  /** Full batches among `n` records, and all batches of `n` records. */
  function FullBatches(n: nat): nat {
    n / 1000
  }

  function Batches(n: nat): nat {
    (n + 999) / 1000
  }

  /** The generator between two records: chunks handed out, text in the buffer. */
  datatype Progress = Progress(chunks: seq<string>, text: string)

  function After(header: Line, lines: seq<Line>, n: nat): Progress
    requires n <= |lines|
  {
    if n == 0 then Progress([header], "")
    else
      var p := After(header, lines, n - 1);
      var text := p.text + lines[n - 1];
      if n % 1000 == 0 then Progress(p.chunks + [text], "") else Progress(p.chunks, text)
  }

  lemma OneMoreRecord(n: nat)
    requires n > 0
    ensures FullBatches(n) == if n % 1000 == 0 then FullBatches(n - 1) + 1 else FullBatches(n - 1)
    ensures n % 1000 == 0 ==> n == 1000 * FullBatches(n)
    ensures n % 1000 != 0 ==> n > 1000 * FullBatches(n)
    ensures n - 1 - 1000 * FullBatches(n - 1) < 1000
  {
  }

  lemma BatchFills(chunks: seq<string>, header: Line, lines: seq<Line>, full: nat, batch: string)
    requires Chunked(chunks, header, lines, full) && 1000 * (full + 1) <= |lines|
    requires batch == Stretch(lines, 1000 * full, 1000 * (full + 1))
    ensures Chunked(chunks + [batch], header, lines, full + 1)
  {
    assert IsBatch(batch, lines, full);
  }

  /** Whole batches are handed out, the rest waits in the buffer. */
  lemma {:induction false} AfterRecords(header: Line, lines: seq<Line>, n: nat)
    requires n <= |lines|
    ensures var p, full := After(header, lines, n), FullBatches(n);
            && Chunked(p.chunks, header, lines, full)
            && p.text == Stretch(lines, 1000 * full, n)
            && (n > 1000 * full <==> |p.text| > 0)
  {
    if n == 0 {
      assert lines[0..0] == [];
    } else {
      var full, p := FullBatches(n - 1), After(header, lines, n - 1);
      AfterRecords(header, lines, n - 1);
      StretchGrows(lines, 1000 * full, n - 1);
      OneMoreRecord(n);
      if n % 1000 == 0 {
        BatchFills(p.chunks, header, lines, full, p.text + lines[n - 1]);
        assert Stretch(lines, n, n) == "" by {
          assert lines[n..n] == [];
        }
      }
    }
  }

  /** Chunks after the trailing partial batch, if any, has been handed out. */
  function Flushed(header: Line, lines: seq<Line>): seq<string> {
    var p := After(header, lines, |lines|);
    if |p.text| > 0 then p.chunks + [p.text] else p.chunks
  }

  lemma LastBatch(n: nat)
    requires n > 1000 * FullBatches(n)
    ensures Batches(n) == FullBatches(n) + 1 && n % 1000 != 0
    ensures Cut(n, FullBatches(n)) == 1000 * FullBatches(n) && Cut(n, FullBatches(n) + 1) == n
    ensures n - 1000 * FullBatches(n) < 1000
  {
  }

  lemma NoPartialBatch(n: nat)
    requires n <= 1000 * FullBatches(n)
    ensures Batches(n) == FullBatches(n) && n % 1000 == 0
  {
  }

  lemma Flush(header: Line, lines: seq<Line>)
    ensures Chunked(Flushed(header, lines), header, lines, Batches(|lines|))
  {
    var p, full := After(header, lines, |lines|), FullBatches(|lines|);
    AfterRecords(header, lines, |lines|);
    if |p.text| > 0 {
      LastBatch(|lines|);
      assert IsBatch(p.text, lines, full);
    } else {
      NoPartialBatch(|lines|);
    }
  }

  /** How a stream can end early. Asking the cursor for the next record, or for one
      more after the last, can fail with any number of records written, however many
      the driver buffers; the transaction commits when the loop is over; the client
      can leave whenever a chunk has been handed out. */
  datatype Break = NoBreak | CursorFails(written: nat) | CommitFails | ClientLeaves(chunk: nat)

  /** The records already written when the database breaks, if it does. */
  function BrokenAt(brk: Break, n: nat): Option<nat> {
    match brk
    case CursorFails(at) => if at <= n then Some(at) else None
    case CommitFails => Some(n)
    case _ => None
  }

  /** Chunks and audit record of a stream. */
  ghost predicate Streamed(chunks: seq<string>, audit: Audit, header: Line, lines: seq<Line>, brk: Break) {
    var n := |lines|;
    if BrokenAt(brk, n).Some? then
      var at := BrokenAt(brk, n).value;
      Chunked(chunks, header, lines, FullBatches(at)) && audit == Audit(at, false, false)
    else if brk.ClientLeaves? && brk.chunk <= Batches(n) then
      Chunked(chunks, header, lines, brk.chunk) && audit == Audit(Cut(n, brk.chunk), false, false)
    else
      Chunked(chunks, header, lines, Batches(n)) && audit == Audit(n, n == MAX_EXPORT_ROWS, true)
  }

  /** The database breaks with `n` of the records written. */
  predicate BreaksNow(brk: Break, n: nat, total: nat) {
    brk == CursorFails(n) || (n == total && brk == CommitFails)
  }

  /** The client leaves at the chunk that record `n` completes. */
  predicate LeavesNow(brk: Break, n: nat) {
    n % 1000 == 0 && brk == ClientLeaves(n / 1000)
  }

  lemma BreaksNowIff(brk: Break, n: nat, total: nat)
    requires n <= total
    ensures BreaksNow(brk, n, total) <==> BrokenAt(brk, total) == Some(n)
  {
  }

  /** Nothing has happened up to record `n`. */
  ghost predicate Undisturbed(brk: Break, n: nat, total: nat)
    requires n <= total
  {
    && (forall i :: 0 <= i < n ==> BrokenAt(brk, total) != Some(i))
    && (forall i :: 0 <= i <= n ==> !LeavesNow(brk, i))
  }

  lemma BrokenOff(header: Line, lines: seq<Line>, brk: Break, n: nat)
    requires n <= |lines| && BreaksNow(brk, n, |lines|)
    ensures Streamed(After(header, lines, n).chunks, Audit(n, false, false), header, lines, brk)
  {
    BreaksNowIff(brk, n, |lines|);
    AfterRecords(header, lines, n);
  }

  lemma LeftAt(header: Line, lines: seq<Line>, brk: Break, n: nat)
    requires n <= |lines| && LeavesNow(brk, n)
    ensures Streamed(After(header, lines, n).chunks, Audit(n, false, false), header, lines, brk)
  {
    AfterRecords(header, lines, n);
  }

  lemma LeftAtLast(header: Line, lines: seq<Line>, brk: Break)
    requires |lines| % 1000 != 0 && brk == ClientLeaves(Batches(|lines|))
    ensures Streamed(Flushed(header, lines), Audit(|lines|, false, false), header, lines, brk)
  {
    Flush(header, lines);
  }

  lemma NotLeft(brk: Break, n: nat)
    requires brk.ClientLeaves? && (forall i :: 0 <= i <= n ==> !LeavesNow(brk, i))
    requires n % 1000 != 0 ==> brk.chunk != Batches(n)
    ensures brk.chunk > Batches(n)
  {
    if brk.chunk <= FullBatches(n) {
      assert LeavesNow(brk, 1000 * brk.chunk);
    }
  }

  lemma RunsOut(header: Line, lines: seq<Line>, brk: Break)
    requires Undisturbed(brk, |lines|, |lines|) && !BreaksNow(brk, |lines|, |lines|)
    requires |lines| % 1000 != 0 ==> brk != ClientLeaves(Batches(|lines|))
    ensures Streamed(Flushed(header, lines), Audit(|lines|, |lines| == MAX_EXPORT_ROWS, true), header, lines, brk)
  {
    var n := |lines|;
    Flush(header, lines);
    BreaksNowIff(brk, n, n);
    if brk.ClientLeaves? {
      NotLeft(brk, n);
    }
  }

  lemma LastChunk(header: Line, lines: seq<Line>)
    ensures var p := After(header, lines, |lines|);
            |p.text| > 0 ==> |p.chunks| == Batches(|lines|) && |lines| % 1000 != 0
  {
    AfterRecords(header, lines, |lines|);
    if |After(header, lines, |lines|).text| > 0 {
      LastBatch(|lines|);
    }
  }

  /** The response body for the records of the query, with an early end if there is
      one; the audit record is written either way. */
  method StreamLines(header: Line, lines: seq<Line>, brk: Break) returns (chunks: seq<string>, audit: Audit)
    requires |lines| <= MAX_EXPORT_ROWS
    ensures Streamed(chunks, audit, header, lines, brk)
  {
    var rowCount, capped, completed := 0, false, false;
    var buffer := new Buffer();
    buffer.WriteRow(header);
    var data := buffer.Drain();
    assert data == header;
    chunks := [data];
    if LeavesNow(brk, 0) {
      LeftAt(header, lines, brk, 0);
      return chunks, Audit(rowCount, capped, completed);
    }
    while rowCount < |lines| && !BreaksNow(brk, rowCount, |lines|)
      invariant 0 <= rowCount <= |lines| && Undisturbed(brk, rowCount, |lines|)
      invariant Progress(chunks, buffer.text) == After(header, lines, rowCount)
    {
      BreaksNowIff(brk, rowCount, |lines|);
      buffer.WriteRow(lines[rowCount]);
      rowCount := rowCount + 1;
      if rowCount % 1000 == 0 {
        data := buffer.Drain();
        chunks := chunks + [data];
        if LeavesNow(brk, rowCount) {
          LeftAt(header, lines, brk, rowCount);
          return chunks, Audit(rowCount, capped, completed);
        }
      }
    }
    if BreaksNow(brk, rowCount, |lines|) {
      BrokenOff(header, lines, brk, rowCount);
      return chunks, Audit(rowCount, capped, completed);
    }
    LastChunk(header, lines);
    if |buffer.text| > 0 {
      data := buffer.Drain();
      chunks := chunks + [data];
      if brk == ClientLeaves(|chunks| - 1) {
        LeftAtLast(header, lines, brk);
        return chunks, Audit(rowCount, capped, completed);
      }
    }
    RunsOut(header, lines, brk);
    capped := rowCount >= MAX_EXPORT_ROWS;
    completed := true;
    audit := Audit(rowCount, capped, completed);
  }

  // ------------------------------------------------------ the stream as a whole

  function Concat(chunks: seq<string>): string {
    if |chunks| == 0 then "" else Concat(chunks[..|chunks| - 1]) + chunks[|chunks| - 1]
  }

  /** Chunks are the cut-up text: joined, they are the header and the text of the
      records they cover, whatever the number of records. */
  lemma {:induction false} ChunksJoin(chunks: seq<string>, header: Line, lines: seq<Line>, n: nat)
    requires Chunked(chunks, header, lines, n)
    ensures Concat(chunks) == header + Stretch(lines, 0, Cut(|lines|, n))
  {
    if n == 0 {
      assert Concat(chunks[..0]) == "" && lines[0..0] == [];
      assert "" + header == header && header + "" == header;
    } else {
      assert IsBatch(chunks[n], lines, n - 1);
      ChunksJoin(chunks[..n], header, lines, n - 1);
      var a, b := Cut(|lines|, n - 1), Cut(|lines|, n);
      StretchesJoin(lines, 0, a, b);
      Associates(header, Stretch(lines, 0, a), Stretch(lines, a, b));
    }
  }

  lemma Associates(a: string, b: string, c: string)
    ensures a + b + c == a + (b + c)
  {
  }

  /** A completed stream, however many chunks it came in, is the whole text. */
  lemma CompletedStreamIsWhole(chunks: seq<string>, header: Line, lines: seq<Line>)
    requires Chunked(chunks, header, lines, Batches(|lines|))
    ensures Concat(chunks) == header + Joined(lines)
  {
    ChunksJoin(chunks, header, lines, Batches(|lines|));
    assert lines[0..|lines|] == lines;
  }

  /** The audit record is wrong in exactly the streams that the database breaks while
      a partial batch is in the buffer: those rows are counted and never handed out. */
  lemma AuditIsRightIff(chunks: seq<string>, audit: Audit, header: Line, lines: seq<Line>, brk: Break)
    requires Streamed(chunks, audit, header, lines, brk)
    ensures audit.rowCount <= |lines|
    ensures Concat(chunks) == header + Stretch(lines, 0, audit.rowCount)
            <==> !(BrokenAt(brk, |lines|).Some? && BrokenAt(brk, |lines|).value % 1000 != 0)
  {
    var n := |lines|;
    if BrokenAt(brk, n).Some? {
      SentAtBreak(chunks, header, lines, BrokenAt(brk, n).value);
    } else if brk.ClientLeaves? && brk.chunk <= Batches(n) {
      ChunksJoin(chunks, header, lines, brk.chunk);
    } else {
      ChunksJoin(chunks, header, lines, Batches(n));
    }
  }

  lemma SentAtBreak(chunks: seq<string>, header: Line, lines: seq<Line>, at: nat)
    requires at <= |lines| && Chunked(chunks, header, lines, FullBatches(at))
    ensures Concat(chunks) == header + Stretch(lines, 0, at) <==> at % 1000 == 0
  {
    var sent := at - at % 1000;
    ChunksJoin(chunks, header, lines, FullBatches(at));
    assert Cut(|lines|, FullBatches(at)) == sent;
    if sent < at {
      LongerStretch(lines, sent, at);
      assert |Concat(chunks)| < |header + Stretch(lines, 0, at)|;
    }
  }

  /** The shortest such stream: one record, and a commit that fails. The record is
      counted, but only the header was handed out. */
  lemma CountedButNotSent(header: Line, line: Line, chunks: seq<string>, audit: Audit)
    requires Streamed(chunks, audit, header, [line], CommitFails)
    ensures chunks == [header] && audit == Audit(1, false, false)
    ensures Concat(chunks) != header + Stretch([line], 0, audit.rowCount)
  {
    AuditIsRightIff(chunks, audit, header, [line], CommitFails);
  }

  /** Only a completed stream says so, and it is the whole text. */
  lemma CompletedMeansWhole(chunks: seq<string>, audit: Audit, header: Line, lines: seq<Line>, brk: Break)
    requires Streamed(chunks, audit, header, lines, brk) && audit.completed
    ensures Concat(chunks) == header + Joined(lines)
    ensures audit.rowCount == |lines| && audit.capped == (|lines| == MAX_EXPORT_ROWS)
  {
    CompletedStreamIsWhole(chunks, header, lines);
  }
}
