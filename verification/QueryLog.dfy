/** The query-log tailer: resume from a checkpoint that commits together with the rows it covers. */
module QueryLog {
  import opened Basics
  import opened LogLines

  const BATCH_SIZE: nat := 256
  const IDENTITY_BYTES: nat := 4096

  /** A file is recognised by a digest of its first line. */
  datatype Identity = Unset | EmptyFile | Digest(hash: string)

  datatype Cursor = Cursor(identity: Identity, offset: nat)

  /** The two tables the tailer writes: dns_queries and its query_log_progress row. */
  datatype Tables = Tables(rows: seq<Entry>, progress: Option<Cursor>)

  /** The log directory: 0 is the active file, i > 0 the backup with suffix .i */
  type Directory = map<nat, Bytes>

  /** The end of the first line, of the first 4096 bytes, or of the file, whichever comes first. */
  function HeadEnd(content: Bytes): (n: nat)
    ensures n <= |content|
  {
    var limit := if |content| <= IDENTITY_BYTES then |content| else IDENTITY_BYTES;
    var e := NextLine(content, 0);
    if 0 < e <= limit then e else limit
  }

  function FileIdentity(hash: Bytes -> string, content: Bytes): Identity {
    if content == [] then EmptyFile else Digest(hash(content[..HeadEnd(content)]))
  }

  /** How log bytes are read: which rows a line gives and how a file is recognised. */
  datatype Reader = Reader(parse: Parser, identify: Bytes -> Identity) {
    /** Once a file holds a complete line, appending to it keeps its identity. */
    ghost predicate Valid() {
      && (forall s :: identify(s) != Unset)
      && (forall s, more :: NextLine(s, 0) > 0 ==> identify(s + more) == identify(s))
    }
  }

  /** The reader of the source, for any parser and any digest. */
  function FirstLineReader(parse: Parser, hash: Bytes -> string): Reader {
    Reader(parse, (content: Bytes) => FileIdentity(hash, content))
  }

  lemma FirstLineReaderIsValid(parse: Parser, hash: Bytes -> string)
    ensures FirstLineReader(parse, hash).Valid()
  {
    forall s: Bytes, more: Bytes | NextLine(s, 0) > 0
      ensures FileIdentity(hash, s + more) == FileIdentity(hash, s)
    {
      IdentityIsStable(hash, s, more);
    }
  }

  lemma IdentityIsStable(hash: Bytes -> string, s: Bytes, more: Bytes)
    requires NextLine(s, 0) > 0
    ensures FileIdentity(hash, s + more) == FileIdentity(hash, s)
  {
    var e, e' := NextLine(s, 0), NextLine(s + more, 0);
    assert (s + more)[e - 1] == NEWLINE;
    assert forall k :: 0 <= k < |s| ==> (s + more)[k] == s[k];
    assert e == e';
    assert (s + more)[..HeadEnd(s)] == s[..HeadEnd(s)];
  }

  /** A file is recognised by its first line with the newline, or by its first 4096 bytes, or by all of it if it is shorter. */
  lemma IdentityIsOfTheHead(parse: Parser, hash: Bytes -> string, content: Bytes, n: nat)
    requires 0 < n <= |content| && n <= 4096 && forall k :: 0 <= k < n - 1 ==> content[k] != 10
    requires n == 4096 || n == |content| || content[n - 1] == 10
    ensures FirstLineReader(parse, hash).identify(content) == Digest(hash(content[..n]))
    ensures FirstLineReader(parse, hash).identify([]) == EmptyFile
  {
    var e := NextLine(content, 0);
    assert e > 0 ==> content[e - 1] == NEWLINE;
    assert HeadEnd(content) == n;
  }

  // ----- what a poll may do to the tables

  /** A stretch of one file that a poll reads: from offset to wherever it gets. */
  datatype Piece = Piece(content: Bytes, offset: nat) {
    /** Where reading stops when nothing fails. */
    function Stop(): nat {
      if offset <= |content| then Complete(content, offset) else offset
    }
  }

  /** The tables once the lines of a piece before stop are committed. */
  function Ingest(r: Reader, t: Tables, p: Piece, stop: nat): Tables
    requires p.offset == stop || p.offset <= stop <= |p.content|
  {
    if stop == p.offset then t
    else Tables(t.rows + Rows(r.parse, p.content, p.offset, stop), Some(Cursor(r.identify(p.content), stop)))
  }

  function IngestAll(r: Reader, t: Tables, pieces: seq<Piece>): Tables
    decreases |pieces|
  {
    if pieces == [] then t
    else IngestAll(r, Ingest(r, t, pieces[0], pieces[0].Stop()), pieces[1..])
  }

  /** t' is what the tables may hold when a poll over the pieces ended, failed or was killed:
      some pieces in full, then a prefix of whole lines of the next one. */
  ghost predicate Reached(r: Reader, t: Tables, pieces: seq<Piece>, t': Tables)
    decreases |pieces|
  {
    || t' == t
    || (pieces != [] &&
        (|| (exists stop :: IsBoundary(pieces[0].content, pieces[0].offset, stop)
                         && t' == Ingest(r, t, pieces[0], stop))
         || Reached(r, Ingest(r, t, pieces[0], pieces[0].Stop()), pieces[1..], t')))
  }

  lemma {:induction false} IngestAllIsReached(r: Reader, t: Tables, pieces: seq<Piece>)
    ensures Reached(r, t, pieces, IngestAll(r, t, pieces))
    decreases |pieces|
  {
    if pieces != [] {
      IngestAllIsReached(r, Ingest(r, t, pieces[0], pieces[0].Stop()), pieces[1..]);
    }
  }

  lemma Associate<T>(a: seq<T>, b: seq<T>, c: seq<T>)
    ensures a + (b + c) == a + b + c
  {
  }

  /** Committing a piece in two steps is committing it in one. */
  lemma IngestMore(r: Reader, t: Tables, p: Piece, mid: nat, stop: nat)
    requires IsBoundary(p.content, p.offset, mid) && mid < stop <= |p.content|
    ensures Ingest(r, t, p, stop) ==
      Tables(Ingest(r, t, p, mid).rows + Rows(r.parse, p.content, mid, stop), Some(Cursor(r.identify(p.content), stop)))
  {
    if p.offset < mid {
      RowsSplit(r.parse, p.content, p.offset, mid, stop);
      Associate(t.rows, Rows(r.parse, p.content, p.offset, mid), Rows(r.parse, p.content, mid, stop));
    }
  }

  /** Having got from t0 to t, what is left of the plan leads where the whole plan leads. */
  ghost predicate Continues(r: Reader, t0: Tables, plan: seq<Piece>, t: Tables, left: seq<Piece>) {
    && IngestAll(r, t, left) == IngestAll(r, t0, plan)
    && forall t' :: Reached(r, t, left, t') ==> Reached(r, t0, plan, t')
  }

  /** Reading on into the next piece, in full or not. */
  lemma PieceRead(r: Reader, t0: Tables, plan: seq<Piece>, t: Tables, left: seq<Piece>, stop: nat)
    requires Continues(r, t0, plan, t, left) && left != []
    requires stop == left[0].offset || IsBoundary(left[0].content, left[0].offset, stop)
    ensures Reached(r, t0, plan, Ingest(r, t, left[0], stop))
    ensures stop == left[0].Stop() ==> Continues(r, t0, plan, Ingest(r, t, left[0], stop), left[1..])
  {
    assert Reached(r, t, left, Ingest(r, t, left[0], stop));
    forall t' | Reached(r, Ingest(r, t, left[0], left[0].Stop()), left[1..], t')
      ensures Reached(r, t0, plan, t')
    {
      assert Reached(r, t, left, t');
    }
  }

  /** Backups from index down to the active file, each from its start; a gap ends the plan. */
  function PlanFrom(dir: Directory, index: nat): seq<Piece> {
    if index !in dir then []
    else [Piece(dir[index], 0)] + (if index == 0 then [] else PlanFrom(dir, index - 1))
  }

  lemma PlanTail(dir: Directory, index: nat)
    requires index in dir
    ensures PlanFrom(dir, index) != [] && PlanFrom(dir, index)[0] == Piece(dir[index], 0)
    ensures PlanFrom(dir, index)[1..] == if index == 0 then [] else PlanFrom(dir, index - 1)
  {
  }

  /** Everything a poll that resumes at cursor reads, given where the checkpointed file was found. */
  function Plan(r: Reader, dir: Directory, cursor: Cursor, rotated: nat): seq<Piece>
    requires 0 in dir && (rotated > 0 ==> rotated in dir)
  {
    if ResumesActive(r, dir, cursor) then
      [Piece(dir[0], if |dir[0]| < cursor.offset then 0 else cursor.offset)]
    else if rotated > 0 then
      [Piece(dir[rotated], cursor.offset)] + PlanFrom(dir, rotated - 1)
    else
      [Piece(dir[0], 0)]
  }

  /** The backups are read oldest first, and a missing one ends the poll instead of being skipped. */
  lemma {:induction false} PlanStopsAtGap(dir: Directory, oldest: nat, gap: int)
    requires -1 <= gap <= oldest && gap !in dir && forall i: nat :: gap < i <= oldest ==> i in dir
    ensures |PlanFrom(dir, oldest)| == oldest - gap
    ensures forall k :: 0 <= k < oldest - gap ==> PlanFrom(dir, oldest)[k] == Piece(dir[oldest - k], 0)
    decreases oldest
  {
    if gap < oldest && oldest > 0 {
      PlanStopsAtGap(dir, oldest - 1, gap);
    }
  }

  /** An active file that has become shorter than the checkpoint says is read from its start. */
  lemma ShortenedFileIsReadAgain(r: Reader, dir: Directory, cursor: Cursor, rotated: nat, t: Tables)
    requires 0 in dir && (rotated > 0 ==> rotated in dir)
    requires cursor.identity == r.identify(dir[0]) && |dir[0]| < cursor.offset
    ensures IngestAll(r, t, Plan(r, dir, cursor, rotated)).rows == t.rows + Rows(r.parse, dir[0], 0, |dir[0]|)
  {
    RowsOfComplete(r.parse, dir[0], 0);
    var plan, stop := Plan(r, dir, cursor, rotated), Complete(dir[0], 0);
    assert plan[1..] == [];
    assert stop == 0 ==> Rows(r.parse, dir[0], 0, stop) == [];
  }

  predicate ResumesActive(r: Reader, dir: Directory, cursor: Cursor)
    requires 0 in dir
  {
    cursor.identity == Unset || cursor.identity == r.identify(dir[0])
  }

  predicate IsRotatedIndex(r: Reader, dir: Directory, identity: Identity, index: nat) {
    if index > 0 then index in dir && r.identify(dir[index]) == identity
    else forall i :: i > 0 && i in dir ==> r.identify(dir[i]) != identity
  }

  // ----- the code

  class Store {
    var rows: seq<Entry>
    var progress: Option<Cursor>

    constructor (rows: seq<Entry>, progress: Option<Cursor>)
      ensures this.rows == rows && this.progress == progress
    {
      this.rows, this.progress := rows, progress;
    }

    ghost function State(): Tables
      reads this
    {
      Tables(rows, progress)
    }

    /** One transaction: every entry and the checkpoint, or nothing. Any statement may fail unless all is calm. */
    method InsertBatch(entries: seq<Entry>, checkpoint: Option<Cursor>, calm: bool) returns (ok: bool)
      modifies this
      ensures calm ==> ok
      ensures State() == if ok then Tables(old(rows) + entries, if checkpoint.Some? then checkpoint else old(progress))
                         else old(State())
    {
      var staged := rows;
      for i := 0 to |entries|
        invariant staged == old(rows) + entries[..i]
        invariant State() == old(State())
      {
        var fails: bool := *;
        if fails && !calm {
          return false;
        }
        assert entries[..i + 1] == entries[..i] + [entries[i]];
        staged := staged + [entries[i]];
      }
      assert entries[..|entries|] == entries;
      var fails: bool := *;
      if fails && !calm {
        return false;
      }
      rows := staged;
      if checkpoint.Some? {
        progress := checkpoint;
      }
      ok := true;
    }
  }

  datatype Chunk = Line | BufferFull | EndOfFile

  /** bufio.Reader.ReadSlice with a 64 KiB buffer, at position i of the snapshot. */
  function ReadSlice(s: Bytes, i: nat): (r: (nat, Chunk))
    requires i <= |s|
    ensures i + r.0 <= |s|
    ensures r.1.Line? ==> i + r.0 == NextLine(s, i) && 0 < r.0 <= MAX_LINE
    ensures r.1.BufferFull? ==> r.0 == MAX_LINE && forall k :: i <= k < i + r.0 ==> s[k] != NEWLINE
    ensures r.1.EndOfFile? ==> forall k :: i <= k < |s| ==> s[k] != NEWLINE
  {
    var e := NextLine(s, i);
    if i < e <= i + MAX_LINE then (e - i, Line)
    else if |s| - i >= MAX_LINE then (MAX_LINE, BufferFull)
    else (|s| - i, EndOfFile)
  }

  /** What the loop keeps of the slice that ends a line. */
  function Accepted(parse: Parser, slice: Bytes, oversized: bool): seq<Entry> {
    if oversized then []
    else match parse(slice)
      case None => []
      case Some(entry) => [entry]
  }

  /** The variables of the line loop: whole lines up to `complete`, then an unfinished line up to `at`. */
  datatype Loop = Loop(at: nat, committed: nat, complete: nat, lines: nat, oversized: bool, entries: seq<Entry>)

  predicate Reading(s: Bytes, offset: nat, loop: Loop) {
    && offset <= loop.committed <= loop.complete <= loop.at <= |s|
    && IsBoundary(s, offset, loop.committed) && IsBoundary(s, loop.committed, loop.complete)
    && (forall k :: loop.complete <= k < loop.at ==> s[k] != NEWLINE)
    && if loop.oversized then loop.at - loop.complete >= MAX_LINE else loop.at == loop.complete
  }

  function AfterLine(parse: Parser, s: Bytes, loop: Loop, n: nat): Loop
    requires loop.at + n <= |s|
  {
    Loop(loop.at + n, loop.committed, loop.at + n, loop.lines + 1, false,
         loop.entries + Accepted(parse, s[loop.at..loop.at + n], loop.oversized))
  }

  lemma LineEnds(parse: Parser, s: Bytes, offset: nat, loop: Loop, n: nat)
    requires Reading(s, offset, loop) && ReadSlice(s, loop.at) == (n, Line)
    ensures NextLine(s, loop.complete) == loop.at + n
    ensures Reading(s, offset, AfterLine(parse, s, loop, n))
  {
    assert s[loop.at + n - 1] == NEWLINE;
  }

  /** A line that ends here adds its row: what the parser makes of it, or nothing when the buffer overflowed. */
  lemma LineAdds(parse: Parser, s: Bytes, offset: nat, loop: Loop, n: nat)
    requires Reading(s, offset, loop) && ReadSlice(s, loop.at) == (n, Line)
    requires NextLine(s, loop.complete) == loop.at + n
    requires loop.entries == Rows(parse, s, loop.committed, loop.complete)
    ensures AfterLine(parse, s, loop, n).entries == Rows(parse, s, loop.committed, loop.at + n)
  {
    RowsExtend(parse, s, loop.committed, loop.complete);
    assert RowOf(parse, s[loop.complete..loop.at + n]) == Accepted(parse, s[loop.at..loop.at + n], loop.oversized);
  }

  /** What holds between two rounds: the tables cover everything committed, the batch what came after. */
  ghost predicate Holds(r: Reader, base: Tables, content: Bytes, offset: nat, loop: Loop, now: Tables) {
    && Reading(content, offset, loop)
    && loop.entries == Rows(r.parse, content, loop.committed, loop.complete)
    && now == Ingest(r, base, Piece(content, offset), loop.committed)
  }

  lemma LineTaken(r: Reader, base: Tables, content: Bytes, offset: nat, loop: Loop, now: Tables, n: nat)
    requires Holds(r, base, content, offset, loop, now) && ReadSlice(content, loop.at) == (n, Line)
    ensures Holds(r, base, content, offset, AfterLine(r.parse, content, loop, n), now)
  {
    LineEnds(r.parse, content, offset, loop, n);
    LineAdds(r.parse, content, offset, loop, n);
    var next := AfterLine(r.parse, content, loop, n);
    assert next.committed == loop.committed && next.complete == loop.at + n;
  }

  lemma EndTaken(r: Reader, base: Tables, content: Bytes, offset: nat, loop: Loop, now: Tables, n: nat)
    requires Holds(r, base, content, offset, loop, now)
    ensures ReadSlice(content, loop.at) == (n, BufferFull) ==>
      Holds(r, base, content, offset, loop.(at := loop.at + n, oversized := true), now)
    ensures ReadSlice(content, loop.at) == (n, EndOfFile) ==> loop.complete == Complete(content, offset)
  {
    if ReadSlice(content, loop.at) == (n, EndOfFile) {
      CompleteIsLast(content, offset, loop.complete);
    }
  }

  class Tailer {
    const store: Store
    const r: Reader

    constructor (store: Store, r: Reader)
      ensures this.store == store && this.r == r
    {
      this.store, this.r := store, r;
    }

    /** The line loop. Whatever fails, the position it returns is a line boundary, the rows added are those
        of the complete lines before it, and the stored checkpoint names it; without a failure no complete
        line is left. */
    method ReadOpenFile(content: Bytes, offset: nat, calm: bool) returns (position: nat, ok: bool, ghost lines: seq<Span>)
      modifies store
      ensures calm ==> ok
      ensures position == offset || IsBoundary(content, offset, position)
      ensures store.State() == Ingest(r, old(store.State()), Piece(content, offset), position)
      ensures ok ==> position == Piece(content, offset).Stop()
      ensures old(store.rows) <= store.rows
      ensures OneRowPerLine(r.parse, content, offset, position, lines, store.rows[|old(store.rows)|..])
    {
      lines := [];
      if offset > |content| {
        // the section reader is empty
        ok := *;
        return offset, ok || calm, lines;
      }
      ghost var base := store.State();
      var loop := Loop(offset, offset, offset, 0, false, []);
      var more := true;
      ok := true;
      while more
        invariant Holds(r, base, content, offset, loop, store.State())
        invariant !more && ok ==> loop.committed == Complete(content, offset)
        invariant calm ==> ok
        decreases more, |content| - loop.at
      {
        loop, more, ok := ReadOne(base, content, offset, loop, calm);
      }
      position := loop.committed;
      lines := RowsAreLines(r.parse, content, offset, position);
      assert position == offset ==> Rows(r.parse, content, offset, position) == [];
      assert store.rows[|old(store.rows)|..] == Rows(r.parse, content, offset, position);
    }

    /** One round of the loop: a cancelled context, the end of the snapshot, a full buffer or a line. */
    method ReadOne(ghost base: Tables, content: Bytes, ghost offset: nat, loop: Loop, calm: bool)
        returns (loop': Loop, more: bool, ok: bool)
      requires Holds(r, base, content, offset, loop, store.State())
      modifies store
      ensures Holds(r, base, content, offset, loop', store.State())
      ensures more ==> loop.at < loop'.at
      ensures calm ==> ok
      ensures !more && ok ==> loop'.committed == Complete(content, offset)
    {
      var cancelled: bool := *;
      if cancelled && !calm {
        return loop, false, false;
      }
      var (n, chunk) := ReadSlice(content, loop.at);
      EndTaken(r, base, content, offset, loop, store.State(), n);
      var broken: bool := *;
      broken := broken && !calm;
      if broken || chunk.EndOfFile? {
        loop', ok := Flush(base, content, offset, loop, calm);
        return loop', false, ok && !broken;
      }
      if chunk.BufferFull? {
        return loop.(at := loop.at + n, oversized := true), true, true;
      }
      LineTaken(r, base, content, offset, loop, store.State(), n);
      loop' := AfterLine(r.parse, content, loop, n);
      more, ok := true, true;
      if loop'.lines == BATCH_SIZE {
        loop', ok := Flush(base, content, offset, loop', calm);
        more := ok;
      }
    }

    /** Commit the lines read since the last commit, if there are any. */
    method Flush(ghost base: Tables, content: Bytes, ghost offset: nat, loop: Loop, calm: bool) returns (loop': Loop, ok: bool)
      requires Holds(r, base, content, offset, loop, store.State())
      modifies store
      ensures Holds(r, base, content, offset, loop', store.State())
      ensures loop'.at == loop.at && loop'.complete == loop.complete
      ensures ok ==> loop'.committed == loop.complete
      ensures calm ==> ok
    {
      loop', ok := loop, true;
      if loop.complete != loop.committed {
        ok := store.InsertBatch(loop.entries, Some(Cursor(r.identify(content), loop.complete)), calm);
        if ok {
          IngestMore(r, base, Piece(content, offset), loop.committed, loop.complete);
          loop' := loop.(committed := loop.complete, entries := [], lines := 0);
        }
      }
    }

    method FindRotatedIndex(dir: Directory, identity: Identity) returns (index: nat)
      ensures IsRotatedIndex(r, dir, identity, index)
    {
      var matches := dir.Keys;
      while matches != {}
        invariant matches <= dir.Keys
        invariant forall i :: i > 0 && i in dir && i !in matches ==> r.identify(dir[i]) != identity
        decreases |matches|
      {
        index :| index in matches;
        if index > 0 && r.identify(dir[index]) == identity {
          return;
        }
        matches := matches - {index};
      }
      index := 0;
    }

    /** One poll over an unchanging directory. The stored checkpoint wins over the cursor passed in. */
    method ReadAvailable(dir: Directory, cursor: Cursor, calm: bool) returns (next: Cursor, ok: bool, ghost rotated: nat)
      modifies store
      ensures 0 !in dir ==> !ok && store.State() == old(store.State())
      ensures 0 in dir ==>
        var from := if old(store.progress).Some? then old(store.progress).value else cursor;
        && IsRotatedIndex(r, dir, from.identity, rotated)
        && var plan := Plan(r, dir, from, rotated);
        && Reached(r, old(store.State()), plan, store.State())
        && (ok ==> store.State() == IngestAll(r, old(store.State()), plan))
        && (calm && (forall i :: 0 <= i < rotated ==> i in dir) ==> ok)
    {
      var from := if store.progress.Some? then store.progress.value else cursor;
      var index := FindRotatedIndex(dir, from.identity);
      rotated := index;
      next := from;
      var unreadable: bool := *;
      if unreadable && !calm {
        return next, false, rotated;
      }
      if 0 !in dir {
        return next, false, rotated;
      }
      ghost var t0 := store.State();
      var position: nat;
      if ResumesActive(r, dir, from) {
        var offset := if |dir[0]| < from.offset then 0 else from.offset;
        ghost var lines;
        position, ok, lines := ReadOpenFile(dir[0], offset, calm);
        ghost var plan := [Piece(dir[0], offset)];
        PieceRead(r, t0, plan, t0, plan, position);
        return Cursor(r.identify(dir[0]), position), ok, rotated;
      }
      next, ok := ReadAcrossRotation(dir, from, index, calm);
    }

    /** Read the first of the files that are left of a plan. */
    method ReadPath(content: Bytes, offset: nat, calm: bool, ghost t0: Tables, ghost plan: seq<Piece>, ghost left: seq<Piece>)
        returns (position: nat, ok: bool)
      requires left != [] && left[0] == Piece(content, offset)
      requires Continues(r, t0, plan, store.State(), left)
      modifies store
      ensures Reached(r, t0, plan, store.State())
      ensures ok ==> Continues(r, t0, plan, store.State(), left[1..])
      ensures calm ==> ok
    {
      ghost var lines;
      position, ok, lines := ReadOpenFile(content, offset, calm);
      PieceRead(r, t0, plan, old(store.State()), left, position);
    }

    /** Read the backups from index down to 1. */
    method ReadBackups(dir: Directory, oldest: nat, calm: bool, ghost t0: Tables, ghost plan: seq<Piece>) returns (ok: bool)
      requires Continues(r, t0, plan, store.State(), PlanFrom(dir, oldest))
      requires Reached(r, t0, plan, store.State())
      modifies store
      ensures Reached(r, t0, plan, store.State())
      ensures ok ==> Continues(r, t0, plan, store.State(), PlanFrom(dir, 0))
      ensures calm && (forall i :: 0 < i <= oldest ==> i in dir) ==> ok
    {
      var index := oldest;
      while index >= 1
        invariant 0 <= index <= oldest
        invariant Continues(r, t0, plan, store.State(), PlanFrom(dir, index))
        invariant Reached(r, t0, plan, store.State())
      {
        if index !in dir {
          return false;
        }
        PlanTail(dir, index);
        var _, read := ReadPath(dir[index], 0, calm, t0, plan, PlanFrom(dir, index));
        if !read {
          return false;
        }
        index := index - 1;
      }
      ok := true;
    }

    /** The checkpointed file is no longer the active one: finish it, then every newer file, oldest first. */
    method ReadAcrossRotation(dir: Directory, from: Cursor, rotated: nat, calm: bool) returns (next: Cursor, ok: bool)
      requires 0 in dir && !ResumesActive(r, dir, from) && IsRotatedIndex(r, dir, from.identity, rotated)
      modifies store
      ensures Reached(r, old(store.State()), Plan(r, dir, from, rotated), store.State())
      ensures ok ==> store.State() == IngestAll(r, old(store.State()), Plan(r, dir, from, rotated))
      ensures calm && (forall i :: 0 <= i < rotated ==> i in dir) ==> ok
    {
      ghost var t0, plan := store.State(), Plan(r, dir, from, rotated);
      next := from;
      var position: nat;
      if rotated > 0 {
        position, ok := ReadPath(dir[rotated], from.offset, calm, t0, plan, plan);
        next := Cursor(from.identity, position);
        if !ok {
          return;
        }
        assert plan[1..] == PlanFrom(dir, rotated - 1);
        ok := ReadBackups(dir, rotated - 1, calm, t0, plan);
        if !ok {
          return;
        }
      }
      PlanTail(dir, 0);
      position, ok := ReadPath(dir[0], 0, calm, t0, plan, PlanFrom(dir, 0));
      next := Cursor(r.identify(dir[0]), position);
    }
  }
}
