/** Bytes, lines and the rows a query log stands for: the specification side of the log pipeline. */
module LogLines {
  import opened Basics

  type Byte = bv8
  type Bytes = seq<Byte>

  const NEWLINE: Byte := 10

  /** The tailer's read buffer (64 KiB): a longer line is skipped, never parsed. */
  const MAX_LINE: nat := 65536

  /** What one accepted log line says. */
  datatype Entry = Entry(clientIP: string, queryType: string, domain: string, rcode: string, upstream: string)

  /** `parseLine` followed by the client-address check: None for every line that is dropped. */
  type Parser = Bytes -> Option<Entry>

  /** The position just behind the first newline at or after i; i itself when there is none. */
  function NextLine(s: Bytes, i: nat): (e: nat)
    requires i <= |s|
    ensures i <= e <= |s|
    ensures e > i ==> s[e - 1] == NEWLINE
    ensures forall k :: i <= k < e - 1 ==> s[k] != NEWLINE
    ensures e == i ==> forall k :: i <= k < |s| ==> s[k] != NEWLINE
    decreases |s| - i
  {
    if i == |s| then i
    else if s[i] == NEWLINE then i + 1
    else
      var e := NextLine(s, i + 1);
      if e == i + 1 then i else e
  }

  /** A reader that started at i may stop at k: nothing was read, or k lies just behind a newline. */
  predicate IsBoundary(s: Bytes, i: nat, k: nat) {
    i <= k <= |s| && (k == i || s[k - 1] == NEWLINE)
  }

  /** Where the complete lines behind i end: an unterminated tail stays unread. */
  function Complete(s: Bytes, i: nat): (c: nat)
    requires i <= |s|
    ensures IsBoundary(s, i, c)
    ensures forall k :: c <= k < |s| ==> s[k] != NEWLINE
    decreases |s| - i
  {
    var e := NextLine(s, i);
    if e == i then i else Complete(s, e)
  }

  function RowOf(parse: Parser, line: Bytes): seq<Entry> {
    if |line| > MAX_LINE then []
    else match parse(line)
      case None => []
      case Some(entry) => [entry]
  }

  /** The rows of the complete lines of s in [i, j), in order. */
  function Rows(parse: Parser, s: Bytes, i: nat, j: nat): seq<Entry>
    requires i <= j <= |s|
    decreases j - i
  {
    var e := NextLine(s, i);
    if e == i || e > j then [] else RowOf(parse, s[i..e]) + Rows(parse, s, e, j)
  }

  /** Reading up to a line boundary and then reading the rest loses and repeats nothing. */
  lemma {:induction false} RowsSplit(parse: Parser, s: Bytes, i: nat, k: nat, j: nat)
    requires IsBoundary(s, i, k) && k <= j <= |s|
    ensures Rows(parse, s, i, j) == Rows(parse, s, i, k) + Rows(parse, s, k, j)
    decreases k - i
  {
    if i < k {
      var e := NextLine(s, i);
      assert e > i;
      RowsSplit(parse, s, e, k, j);
    }
  }

  /** One more line behind a boundary adds that line's rows. */
  lemma RowsExtend(parse: Parser, s: Bytes, i: nat, k: nat)
    requires IsBoundary(s, i, k) && NextLine(s, k) > k
    ensures Rows(parse, s, i, NextLine(s, k)) == Rows(parse, s, i, k) + RowOf(parse, s[k..NextLine(s, k)])
  {
    RowsSplit(parse, s, i, k, NextLine(s, k));
  }

  /** Bytes behind the last newline hold no row. */
  lemma RowsOfComplete(parse: Parser, s: Bytes, i: nat)
    requires i <= |s|
    ensures Rows(parse, s, i, |s|) == Rows(parse, s, i, Complete(s, i))
  {
    RowsSplit(parse, s, i, Complete(s, i), |s|);
  }

  /** Complete is the only boundary with no newline behind it. */
  lemma CompleteIsLast(s: Bytes, i: nat, k: nat)
    requires IsBoundary(s, i, k) && forall m :: k <= m < |s| ==> s[m] != NEWLINE
    ensures k == Complete(s, i)
  {
    var c := Complete(s, i);
    assert c > i ==> s[c - 1] == NEWLINE;
  }

  /** What was read of a file stays what it was when the file grows. */
  lemma {:induction false} RowsOfGrown(parse: Parser, s: Bytes, more: Bytes, i: nat, j: nat)
    requires i <= j <= |s|
    ensures Rows(parse, s + more, i, j) == Rows(parse, s, i, j)
    decreases j - i
  {
    var e, e' := NextLine(s, i), NextLine(s + more, i);
    assert forall k :: 0 <= k < |s| ==> (s + more)[k] == s[k];
    assert e > i ==> (s + more)[e - 1] == NEWLINE;
    assert i < e' <= |s| ==> s[e' - 1] == NEWLINE;
    if i < e <= j {
      assert e == e';
      assert (s + more)[i..e] == s[i..e];
      RowsOfGrown(parse, s, more, e, j);
    }
  }

  lemma {:induction false} NextLineShift(before: Bytes, s: Bytes, i: nat)
    requires i <= |s|
    ensures NextLine(before + s, |before| + i) == |before| + NextLine(s, i)
    decreases |s| - i
  {
    if i < |s| {
      assert (before + s)[|before| + i] == s[i];
      NextLineShift(before, s, i + 1);
    }
  }

  lemma RowsStep(parse: Parser, s: Bytes, i: nat, j: nat, e: nat)
    requires i < e <= j <= |s| && e == NextLine(s, i)
    ensures Rows(parse, s, i, j) == RowOf(parse, s[i..e]) + Rows(parse, s, e, j)
  {
  }

  lemma SliceShift(before: Bytes, s: Bytes, i: nat, j: nat, lo: nat, hi: nat)
    requires i <= j <= |s| && lo == |before| + i && hi == |before| + j
    ensures (before + s)[lo..hi] == s[i..j]
  {
  }

  /** A line says the same wherever it stands. */
  lemma {:induction false} RowsShift(parse: Parser, before: Bytes, s: Bytes, i: nat, j: nat, lo: nat, hi: nat)
    requires i <= j <= |s| && lo == |before| + i && hi == |before| + j
    ensures Rows(parse, before + s, lo, hi) == Rows(parse, s, i, j)
    decreases j - i
  {
    NextLineShift(before, s, i);
    var e := NextLine(s, i);
    var t, end := before + s, |before| + e;
    if i < e <= j {
      SliceShift(before, s, i, e, lo, end);
      RowsShift(parse, before, s, e, j, end, hi);
      RowsStep(parse, t, lo, hi, end);
      RowsStep(parse, s, i, j, e);
      assert RowOf(parse, t[lo..end]) == RowOf(parse, s[i..e]);
    }
  }

  // ----- the rows, line by line

  /** Where a line starts and ends. */
  datatype Span = Span(from: nat, upto: nat)

  /** A complete line of s for a reader that started at i: it begins there or behind a newline, and ends with its only one. */
  predicate IsLine(s: Bytes, i: nat, line: Span) {
    && i <= line.from < line.upto <= |s|
    && (line.from == i || s[line.from - 1] == 10)
    && s[line.upto - 1] == 10 && forall k :: line.from <= k < line.upto - 1 ==> s[k] != 10
  }

  /** The line fits the 64 KiB buffer and the parser makes this of it. */
  predicate Says(parse: Parser, s: Bytes, line: Span, entry: Entry) {
    line.from <= line.upto <= |s| && line.upto - line.from <= 65536 && parse(s[line.from..line.upto]) == Some(entry)
  }

  /** Each row is what its line says. */
  ghost predicate RowsMatch(parse: Parser, s: Bytes, i: nat, j: nat, lines: seq<Span>, rows: seq<Entry>) {
    && |lines| == |rows|
    && forall k :: 0 <= k < |lines| ==> IsLine(s, i, lines[k]) && lines[k].upto <= j && Says(parse, s, lines[k], rows[k])
  }

  predicate LinesInOrder(lines: seq<Span>) {
    forall k, m :: 0 <= k < m < |lines| ==> lines[k].upto <= lines[m].from
  }

  /** No line that fits and parses is missing. */
  ghost predicate NoneMissing(parse: Parser, s: Bytes, i: nat, j: nat, lines: seq<Span>) {
    forall line, entry :: IsLine(s, i, line) && line.upto <= j && Says(parse, s, line, entry) ==> line in lines
  }

  /** One row for each line in [i, j) that fits the buffer and parses, in the order of the lines, and no other row. */
  ghost predicate OneRowPerLine(parse: Parser, s: Bytes, i: nat, j: nat, lines: seq<Span>, rows: seq<Entry>) {
    RowsMatch(parse, s, i, j, lines, rows) && LinesInOrder(lines) && NoneMissing(parse, s, i, j, lines)
  }

  lemma NextLineIsLine(s: Bytes, i: nat, e: nat)
    requires i < e <= |s|
    ensures IsLine(s, i, Span(i, e)) <==> e == NextLine(s, i)
  {
  }

  /** Two lines of a stretch are the same or do not overlap. */
  lemma AfterFirst(s: Bytes, i: nat, e: nat, line: Span)
    requires IsLine(s, i, Span(i, e)) && IsLine(s, i, line)
    ensures line == Span(i, e) || (e <= line.from && IsLine(s, e, line))
  {
    if line.from > i {
      assert s[line.from - 1] == 10;
    }
  }

  lemma NoLineWithin(s: Bytes, i: nat, j: nat, line: Span)
    requires i <= j <= |s| && (NextLine(s, i) == i || NextLine(s, i) > j) && IsLine(s, i, line)
    ensures line.upto > j
  {
    assert s[line.upto - 1] == NEWLINE;
  }

  /** A single line gives its row, or none when it is longer than the buffer or does not parse. */
  lemma RowsOfOneLine(parse: Parser, s: Bytes, i: nat, e: nat)
    requires i < e <= |s| && e == NextLine(s, i)
    ensures Rows(parse, s, i, e) ==
      if e - i > 65536 || parse(s[i..e]).None? then [] else [parse(s[i..e]).value]
  {
    RowsStep(parse, s, i, e, e);
    assert Rows(parse, s, e, e) == [];
  }

  /** The rows of a stretch are what its lines say: each line that fits and parses has its row, once and in its place. */
  lemma {:induction false} RowsAreLines(parse: Parser, s: Bytes, i: nat, j: nat) returns (lines: seq<Span>)
    requires i <= j <= |s|
    ensures OneRowPerLine(parse, s, i, j, lines, Rows(parse, s, i, j))
    decreases j - i
  {
    var e := NextLine(s, i);
    if e == i || e > j {
      lines := [];
      forall line | IsLine(s, i, line)
        ensures line.upto > j
      {
        NoLineWithin(s, i, j, line);
      }
    } else {
      lines := RowsAreLines(parse, s, e, j);
      RowsOfOneLine(parse, s, i, e);
      RowsSplit(parse, s, i, e, j);
      NextLineIsLine(s, i, e);
      lines := OneMoreLine(parse, s, i, j, e, lines, Rows(parse, s, e, j));
    }
  }

  /** One line before the others. */
  lemma OneMoreLine(parse: Parser, s: Bytes, i: nat, j: nat, e: nat, rest: seq<Span>, rows: seq<Entry>) returns (lines: seq<Span>)
    requires e <= j <= |s| && IsLine(s, i, Span(i, e)) && OneRowPerLine(parse, s, e, j, rest, rows)
    ensures OneRowPerLine(parse, s, i, j, lines,
      (if e - i > 65536 || parse(s[i..e]).None? then [] else [parse(s[i..e]).value]) + rows)
  {
    if e - i > 65536 || parse(s[i..e]).None? {
      lines := rest;
      LineIsDropped(parse, s, i, j, e, lines);
      assert [] + rows == rows;
    } else {
      lines := [Span(i, e)] + rest;
      LineCounts(parse, s, i, j, e, rest, rows, parse(s[i..e]).value);
    }
  }

  lemma LineIsDropped(parse: Parser, s: Bytes, i: nat, j: nat, e: nat, lines: seq<Span>)
    requires e <= j <= |s| && IsLine(s, i, Span(i, e)) && NoneMissing(parse, s, e, j, lines)
    requires e - i > 65536 || parse(s[i..e]).None?
    ensures NoneMissing(parse, s, i, j, lines)
  {
    forall line, entry | IsLine(s, i, line) && line.upto <= j && Says(parse, s, line, entry)
      ensures line in lines
    {
      AfterFirst(s, i, e, line);
    }
  }

  lemma LineCounts(parse: Parser, s: Bytes, i: nat, j: nat, e: nat, lines: seq<Span>, rows: seq<Entry>, entry: Entry)
    requires e <= j <= |s| && IsLine(s, i, Span(i, e)) && OneRowPerLine(parse, s, e, j, lines, rows)
    requires Says(parse, s, Span(i, e), entry)
    ensures OneRowPerLine(parse, s, i, j, [Span(i, e)] + lines, [entry] + rows)
  {
    FirstMatches(parse, s, i, j, e, lines, rows, entry);
    var all := [Span(i, e)] + lines;
    forall line, other | IsLine(s, i, line) && line.upto <= j && Says(parse, s, line, other)
      ensures line in all
    {
      AfterFirst(s, i, e, line);
      assert line == Span(i, e) ==> line == all[0];
    }
  }

  lemma FirstMatches(parse: Parser, s: Bytes, i: nat, j: nat, e: nat, lines: seq<Span>, rows: seq<Entry>, entry: Entry)
    requires e <= j <= |s| && IsLine(s, i, Span(i, e)) && RowsMatch(parse, s, e, j, lines, rows) && LinesInOrder(lines)
    requires Says(parse, s, Span(i, e), entry)
    ensures RowsMatch(parse, s, i, j, [Span(i, e)] + lines, [entry] + rows) && LinesInOrder([Span(i, e)] + lines)
  {
    var all, all' := [Span(i, e)] + lines, [entry] + rows;
    forall k | 0 <= k < |all|
      ensures IsLine(s, i, all[k]) && e <= all[k].upto <= j && Says(parse, s, all[k], all'[k]) && (k > 0 ==> e <= all[k].from)
    {
      if k > 0 {
        assert all[k] == lines[k - 1] && all'[k] == rows[k - 1];
      }
    }
    forall k, m | 0 <= k < m < |all|
      ensures all[k].upto <= all[m].from
    {
      assert k > 0 ==> all[k] == lines[k - 1] && all[m] == lines[m - 1];
    }
  }
}
