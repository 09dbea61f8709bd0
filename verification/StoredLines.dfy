/** What exactly-once ingestion means line by line: every stored row is one line of the log, and every line has one. */
module StoredLines {
  import opened Basics
  import opened LogLines
  import opened QueryLog
  import opened ExactlyOnce

  /** A line of the history of files. */
  datatype LogLine = LogLine(file: nat, span: Span)

  /** A complete line of one of the files up to file g, in that file before offset o. */
  predicate IsLineOf(files: seq<Bytes>, g: nat, o: nat, line: LogLine) {
    && line.file <= g && line.file < |files| && IsLine(files[line.file], 0, line.span)
    && (line.file == g ==> line.span.upto <= o)
  }

  predicate Before(a: LogLine, b: LogLine) {
    a.file < b.file || (a.file == b.file && a.span.upto <= b.span.from)
  }

  /** Each row is what its line says, the lines are in the order of the log, and no line that says something is missing. */
  ghost predicate RowsAreTheLines(parse: Parser, files: seq<Bytes>, g: nat, o: nat, lines: seq<LogLine>, rows: seq<Entry>) {
    LinesMatch(parse, files, g, o, lines, rows) && InLogOrder(lines) && NoLineMissing(parse, files, g, o, lines)
  }

  ghost predicate LinesMatch(parse: Parser, files: seq<Bytes>, g: nat, o: nat, lines: seq<LogLine>, rows: seq<Entry>) {
    && |lines| == |rows|
    && forall k :: 0 <= k < |lines| ==> IsLineOf(files, g, o, lines[k]) && Says(parse, files[lines[k].file], lines[k].span, rows[k])
  }

  predicate InLogOrder(lines: seq<LogLine>) {
    forall k, m :: 0 <= k < m < |lines| ==> Before(lines[k], lines[m])
  }

  ghost predicate NoLineMissing(parse: Parser, files: seq<Bytes>, g: nat, o: nat, lines: seq<LogLine>) {
    forall line, entry :: IsLineOf(files, g, o, line) && Says(parse, files[line.file], line.span, entry) ==> line in lines
  }

  function InFile(g: nat, spans: seq<Span>): (lines: seq<LogLine>)
    ensures |lines| == |spans| && forall k :: 0 <= k < |lines| ==> lines[k] == LogLine(g, spans[k])
  {
    seq(|spans|, k requires 0 <= k < |spans| => LogLine(g, spans[k]))
  }

  /** The lines of the files before g, then those of file g. */
  lemma OneMoreFile(parse: Parser, files: seq<Bytes>, g: nat, o: nat, lines: seq<LogLine>, rows: seq<Entry>, spans: seq<Span>,
                    more: seq<Entry>)
    requires 0 < g < |files| && o <= |files[g]| && RowsAreTheLines(parse, files, g - 1, |files[g - 1]|, lines, rows)
    requires OneRowPerLine(parse, files[g], 0, o, spans, more)
    ensures RowsAreTheLines(parse, files, g, o, lines + InFile(g, spans), rows + more)
  {
    MoreMatch(parse, files, g, o, lines, rows, spans, more);
    MoreInOrder(g, lines, spans);
    NothingMissingYet(parse, files, g, o, lines, spans);
  }

  lemma MoreMatch(parse: Parser, files: seq<Bytes>, g: nat, o: nat, lines: seq<LogLine>, rows: seq<Entry>, spans: seq<Span>,
                  more: seq<Entry>)
    requires 0 < g < |files| && o <= |files[g]| && LinesMatch(parse, files, g - 1, |files[g - 1]|, lines, rows)
    requires RowsMatch(parse, files[g], 0, o, spans, more)
    ensures LinesMatch(parse, files, g, o, lines + InFile(g, spans), rows + more)
  {
    var all, all' := lines + InFile(g, spans), rows + more;
    forall k | 0 <= k < |all|
      ensures IsLineOf(files, g, o, all[k]) && Says(parse, files[all[k].file], all[k].span, all'[k])
    {
      if k < |lines| {
        assert all[k] == lines[k] && all'[k] == rows[k];
      } else {
        assert all[k] == LogLine(g, spans[k - |lines|]) && all'[k] == more[k - |lines|];
      }
    }
  }

  lemma MoreInOrder(g: nat, lines: seq<LogLine>, spans: seq<Span>)
    requires InLogOrder(lines) && LinesInOrder(spans) && forall k :: 0 <= k < |lines| ==> lines[k].file < g
    ensures InLogOrder(lines + InFile(g, spans))
  {
    var all, n := lines + InFile(g, spans), |lines|;
    forall k, m | 0 <= k < m < |all|
      ensures Before(all[k], all[m])
    {
      assert k >= n ==> all[k] == LogLine(g, spans[k - n]);
      assert m >= n ==> all[m] == LogLine(g, spans[m - n]);
    }
  }

  lemma NothingMissingYet(parse: Parser, files: seq<Bytes>, g: nat, o: nat, lines: seq<LogLine>, spans: seq<Span>)
    requires 0 < g < |files| && NoLineMissing(parse, files, g - 1, |files[g - 1]|, lines)
    requires NoneMissing(parse, files[g], 0, o, spans)
    ensures NoLineMissing(parse, files, g, o, lines + InFile(g, spans))
  {
    var all := lines + InFile(g, spans);
    forall line, entry | IsLineOf(files, g, o, line) && Says(parse, files[line.file], line.span, entry)
      ensures line in all
    {
      if line.file == g {
        var k :| 0 <= k < |spans| && spans[k] == line.span;
        assert all[|lines| + k] == line;
      } else {
        assert IsLineOf(files, g - 1, |files[g - 1]|, line);
      }
    }
  }

  /** The rows of the log up to a position, line by line. */
  lemma {:induction false} UptoIsLines(r: Reader, files: seq<Bytes>, g: nat, o: nat) returns (lines: seq<LogLine>)
    requires g < |files| && o <= |files[g]|
    ensures RowsAreTheLines(r.parse, files, g, o, lines, Upto(r, files, g, o))
    decreases g
  {
    var spans := RowsAreLines(r.parse, files[g], 0, o);
    if g == 0 {
      lines := InFile(0, spans);
      FirstFile(r.parse, files, o, spans, Rows(r.parse, files[0], 0, o));
      assert Upto(r, files, 0, o) == Rows(r.parse, files[0], 0, o);
    } else {
      var before := UptoIsLines(r, files, g - 1, |files[g - 1]|);
      lines := before + InFile(g, spans);
      assert files[..g][..g - 1] == files[..g - 1];
      assert StreamRows(r, files[..g]) == Upto(r, files, g - 1, |files[g - 1]|);
      OneMoreFile(r.parse, files, g, o, before, StreamRows(r, files[..g]), spans, Rows(r.parse, files[g], 0, o));
    }
  }

  lemma FirstFile(parse: Parser, files: seq<Bytes>, o: nat, spans: seq<Span>, rows: seq<Entry>)
    requires files != [] && o <= |files[0]| && OneRowPerLine(parse, files[0], 0, o, spans, rows)
    ensures RowsAreTheLines(parse, files, 0, o, InFile(0, spans), rows)
  {
    var lines := InFile(0, spans);
    forall line, entry | IsLineOf(files, 0, o, line) && Says(parse, files[line.file], line.span, entry)
      ensures line in lines
    {
      var k :| 0 <= k < |spans| && spans[k] == line.span;
      assert lines[k] == line;
    }
  }

  /** Where tables and log agree, the rows stored since the start are, one for one and in order, what the lines of the log say
      from where the run began to the stored checkpoint. */
  lemma StoredIsLines(r: Reader, start: Start, w: World) returns (lines: seq<LogLine>)
    requires Good(r, start, w)
    ensures w.tables.progress.Some? && start.rows <= w.tables.rows
    ensures RowsAreTheLines(r.parse, w.files, w.file, w.tables.progress.value.offset, lines,
                            start.covered + w.tables.rows[|start.rows|..])
  {
    lines := UptoIsLines(r, w.files, w.file, w.tables.progress.value.offset);
  }

  /** Exactly once, line by line: so it is in every state of every run. */
  lemma EveryLineOnce(r: Reader, start: Start, maxBytes: nat, backups: nat, run: seq<World>, i: nat) returns (lines: seq<LogLine>)
    requires r.Valid() && run != [] && IsRun(r, maxBytes, backups, run) && Good(r, start, run[0]) && i < |run|
    ensures var w := run[i];
      && w.tables.progress.Some? && start.rows <= w.tables.rows
      && RowsAreTheLines(r.parse, w.files, w.file, w.tables.progress.value.offset, lines,
                         start.covered + w.tables.rows[|start.rows|..])
  {
    ExactlyOnceOverRuns(r, start, maxBytes, backups, run, i);
    lines := StoredIsLines(r, start, run[i]);
  }

  /** Once a poll has caught up, these are all the lines there are. */
  lemma CaughtUpIsAllLines(r: Reader, start: Start, w: World) returns (lines: seq<LogLine>)
    requires w.files != [] && CaughtUp(r, start, w)
    ensures start.rows <= w.tables.rows
    ensures RowsAreTheLines(r.parse, w.files, |w.files| - 1, |w.files[|w.files| - 1]|, lines,
                            start.covered + w.tables.rows[|start.rows|..])
  {
    var n := |w.files| - 1;
    lines := UptoIsLines(r, w.files, n, |w.files[n]|);
  }
}
