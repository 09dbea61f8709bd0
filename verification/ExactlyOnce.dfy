/** Exactly-once ingestion over every run of writes, rotations, polls, failed batches and restarts. */
module ExactlyOnce {
  import opened LogLines
  import opened QueryLog
  import opened LogWriter
  import opened LogPipeline

  /** The rows of the whole history of files: each file's complete lines, oldest file first. */
  function StreamRows(r: Reader, files: seq<Bytes>): seq<Entry> {
    if files == [] then []
    else
      var n := |files| - 1;
      StreamRows(r, files[..n]) + Rows(r.parse, files[n], 0, |files[n]|)
  }

  /** The rows of everything before offset o of file g. */
  function Upto(r: Reader, files: seq<Bytes>, g: nat, o: nat): seq<Entry>
    requires g < |files| && o <= |files[g]|
  {
    StreamRows(r, files[..g]) + Rows(r.parse, files[g], 0, o)
  }

  /** The stored checkpoint names a line boundary of file g, by the identity of that file. */
  predicate CheckpointAt(r: Reader, files: seq<Bytes>, t: Tables, g: nat) {
    && g < |files|
    && t.progress.Some?
    && 0 < t.progress.value.offset
    && IsBoundary(files[g], 0, t.progress.value.offset)
    && t.progress.value.identity == r.identify(files[g])
  }

  /** What was there before the run began: the rows in the table and the rows of the log already behind the
      first checkpoint. On a fresh installation both are empty. */
  datatype Start = Start(rows: seq<Entry>, covered: seq<Entry>)

  /** The rows added since the start are the rows of the log from there to here. */
  predicate Covers(start: Start, t: Tables, upto: seq<Entry>) {
    start.rows <= t.rows && upto == start.covered + t.rows[|start.rows|..]
  }

  /** The table holds, behind the rows it started with, exactly the rows of the log between the first
      checkpoint and the stored one, in file g: in order, none twice, none missing. */
  predicate ConsistentAt(r: Reader, start: Start, files: seq<Bytes>, t: Tables, g: nat) {
    CheckpointAt(r, files, t, g) && Covers(start, t, Upto(r, files, g, t.progress.value.offset))
  }

  ghost predicate ConsistentFrom(r: Reader, start: Start, files: seq<Bytes>, t: Tables, oldest: nat) {
    exists g: nat :: g >= oldest && ConsistentAt(r, start, files, t, g)
  }

  // ----- a poll

  /** The checkpointed file is still retained and no two retained files share a first line. */
  predicate PollReady(r: Reader, files: seq<Bytes>, backups: nat, t: Tables, g: nat) {
    && CheckpointAt(r, files, t, g)
    && |files| - 1 <= g + backups
    && forall i, j :: 0 <= i < j < |files| && |files| - 1 <= i + backups ==> r.identify(files[i]) != r.identify(files[j])
  }

  predicate InWindow(files: seq<Bytes>, backups: nat, g: nat) {
    g < |files| <= g + backups + 1
  }

  function PiecesFrom(files: seq<Bytes>, h: nat, o: nat): seq<Piece>
    requires h < |files|
    decreases |files| - h
  {
    [Piece(files[h], o)] + (if h + 1 == |files| then [] else PiecesFrom(files, h + 1, 0))
  }

  lemma {:induction false} PlanFromIsPieces(files: seq<Bytes>, backups: nat, i: nat)
    requires i < |files| && i <= backups
    ensures PlanFrom(Retained(files, backups), i) == PiecesFrom(files, |files| - 1 - i, 0)
    decreases i
  {
    WindowAt(files, backups, i);
    var d, h := Retained(files, backups), |files| - 1 - i;
    var rest := if i == 0 then [] else PlanFrom(d, i - 1);
    assert PlanFrom(d, i) == [Piece(d[i], 0)] + rest;
    if i > 0 {
      PlanFromIsPieces(files, backups, i - 1);
      assert rest == PiecesFrom(files, h + 1, 0);
    }
    assert PiecesFrom(files, h, 0) == [Piece(files[h], 0)] + rest;
  }

  lemma WindowAt(files: seq<Bytes>, backups: nat, i: nat)
    ensures i in Retained(files, backups) <==> i <= backups && i < |files|
    ensures i in Retained(files, backups) ==> Retained(files, backups)[i] == files[|files| - 1 - i]
  {
    assert IsFile(files, i) <==> i < |files|;
  }

  /** The identity search finds the checkpointed file wherever rotation has moved it. */
  lemma SearchFindsCheckpoint(r: Reader, files: seq<Bytes>, backups: nat, t: Tables, g: nat, rotated: nat)
    requires r.Valid() && PollReady(r, files, backups, t, g)
    requires IsRotatedIndex(r, Retained(files, backups), t.progress.value.identity, rotated)
    ensures g + 1 < |files| ==> rotated == |files| - 1 - g && r.identify(files[|files| - 1]) != r.identify(files[g])
    ensures g + 1 == |files| ==> rotated == 0
  {
    WindowAt(files, backups, |files| - 1 - g);
    WindowAt(files, backups, rotated);
  }

  lemma PlanWithinActive(r: Reader, files: seq<Bytes>, backups: nat, cursor: Cursor, g: nat, rotated: nat)
    requires g + 1 == |files| && (rotated > 0 ==> rotated in Retained(files, backups))
    requires cursor.identity == r.identify(files[g]) && cursor.offset <= |files[g]|
    ensures 0 in Retained(files, backups)
    ensures Plan(r, Retained(files, backups), cursor, rotated) == PiecesFrom(files, g, cursor.offset)
  {
    WindowAt(files, backups, 0);
  }

  lemma PlanAcrossRotation(r: Reader, files: seq<Bytes>, backups: nat, cursor: Cursor, g: nat, rotated: nat)
    requires g + 1 < |files| <= g + 1 + backups && rotated == |files| - 1 - g
    requires cursor.identity != Unset && cursor.identity != r.identify(files[|files| - 1])
    ensures 0 in Retained(files, backups) && rotated in Retained(files, backups)
    ensures Plan(r, Retained(files, backups), cursor, rotated) == PiecesFrom(files, g, cursor.offset)
  {
    WindowAt(files, backups, 0);
    WindowAt(files, backups, rotated);
    PlanFromIsPieces(files, backups, rotated - 1);
    var d := Retained(files, backups);
    assert Plan(r, d, cursor, rotated) == [Piece(d[rotated], cursor.offset)] + PlanFrom(d, rotated - 1);
    assert PiecesFrom(files, g, cursor.offset) == [Piece(files[g], cursor.offset)] + PiecesFrom(files, g + 1, 0);
  }

  /** A poll resumes in the checkpointed file and reads on in order. */
  lemma PlanIsPieces(r: Reader, files: seq<Bytes>, backups: nat, t: Tables, g: nat, rotated: nat)
    requires r.Valid() && PollReady(r, files, backups, t, g)
    requires IsRotatedIndex(r, Retained(files, backups), t.progress.value.identity, rotated)
    ensures 0 in Retained(files, backups)
    ensures Plan(r, Retained(files, backups), t.progress.value, rotated) == PiecesFrom(files, g, t.progress.value.offset)
  {
    SearchFindsCheckpoint(r, files, backups, t, g, rotated);
    if g + 1 < |files| {
      PlanAcrossRotation(r, files, backups, t.progress.value, g, rotated);
    } else {
      PlanWithinActive(r, files, backups, t.progress.value, g, rotated);
    }
  }

  /** All rows before offset o of file h are in the table, whatever earlier file the checkpoint still names. */
  ghost predicate ReadUpto(r: Reader, start: Start, files: seq<Bytes>, t: Tables, oldest: nat, h: nat, o: nat) {
    && oldest <= h < |files| && IsBoundary(files[h], 0, o)
    && ConsistentFrom(r, start, files, t, oldest)
    && Covers(start, t, Upto(r, files, h, o))
  }

  lemma CoversMore(start: Start, t: Tables, upto: seq<Entry>, more: seq<Entry>, t': Tables)
    requires Covers(start, t, upto) && t'.rows == t.rows + more
    ensures Covers(start, t', upto + more)
  {
    assert t'.rows[|start.rows|..] == t.rows[|start.rows|..] + more;
    Associate(start.covered, t.rows[|start.rows|..], more);
  }

  /** Committing whole lines of the file being read keeps the table consistent. */
  lemma IngestKeeps(r: Reader, start: Start, files: seq<Bytes>, t: Tables, oldest: nat, h: nat, o: nat, stop: nat)
    requires ReadUpto(r, start, files, t, oldest, h, o) && IsBoundary(files[h], o, stop)
    ensures ReadUpto(r, start, files, Ingest(r, t, Piece(files[h], o), stop), oldest, h, stop)
  {
    if o < stop {
      var t' := Ingest(r, t, Piece(files[h], o), stop);
      RowsSplit(r.parse, files[h], 0, o, stop);
      var more := Rows(r.parse, files[h], o, stop);
      CoversMore(start, t, Upto(r, files, h, o), more, t');
      Associate(StreamRows(r, files[..h]), Rows(r.parse, files[h], 0, o), more);
      assert ConsistentAt(r, start, files, t', h);
    }
  }

  /** A file read to the end of its complete lines is followed by the next file from its start. */
  lemma NextFile(r: Reader, start: Start, files: seq<Bytes>, t: Tables, oldest: nat, h: nat, o: nat)
    requires ReadUpto(r, start, files, t, oldest, h, o) && o == Complete(files[h], o) && h + 1 < |files|
    ensures ReadUpto(r, start, files, t, oldest, h + 1, 0)
  {
    CompleteIsLast(files[h], 0, o);
    RowsOfComplete(r.parse, files[h], 0);
    assert files[..h + 1][..h] == files[..h];
    assert StreamRows(r, files[..h + 1]) == Upto(r, files, h, o);
  }

  lemma CompleteIsComplete(s: Bytes, o: nat)
    requires o <= |s|
    ensures Complete(s, Complete(s, o)) == Complete(s, o)
  {
    CompleteIsLast(s, Complete(s, o), Complete(s, o));
  }

  /** Wherever a poll is cut off, the table is consistent. */
  lemma {:induction false} ReachedKeeps(r: Reader, start: Start, files: seq<Bytes>, t: Tables, oldest: nat, h: nat, o: nat, t': Tables)
    requires ReadUpto(r, start, files, t, oldest, h, o)
    requires Reached(r, t, PiecesFrom(files, h, o), t')
    ensures ConsistentFrom(r, start, files, t', oldest)
    decreases |files| - h
  {
    var pieces := PiecesFrom(files, h, o);
    var p := Piece(files[h], o);
    if stop :| IsBoundary(files[h], o, stop) && t' == Ingest(r, t, p, stop) {
      IngestKeeps(r, start, files, t, oldest, h, o, stop);
    } else if t' != t {
      IngestKeeps(r, start, files, t, oldest, h, o, p.Stop());
      var t1 := Ingest(r, t, p, p.Stop());
      assert Reached(r, t1, pieces[1..], t');
      if h + 1 < |files| {
        CompleteIsComplete(files[h], o);
        NextFile(r, start, files, t1, oldest, h, p.Stop());
        assert pieces[1..] == PiecesFrom(files, h + 1, 0);
        ReachedKeeps(r, start, files, t1, oldest, h + 1, 0, t');
      }
    }
  }

  /** A poll that ends without an error has ingested every complete line of the log. */
  lemma {:induction false} IngestAllCatchesUp(r: Reader, start: Start, files: seq<Bytes>, t: Tables, oldest: nat, h: nat, o: nat)
    requires ReadUpto(r, start, files, t, oldest, h, o)
    ensures var t' := IngestAll(r, t, PiecesFrom(files, h, o));
      ConsistentFrom(r, start, files, t', oldest) && Covers(start, t', StreamRows(r, files))
    decreases |files| - h
  {
    var pieces, p := PiecesFrom(files, h, o), Piece(files[h], o);
    IngestKeeps(r, start, files, t, oldest, h, o, p.Stop());
    var t1 := Ingest(r, t, p, p.Stop());
    CompleteIsComplete(files[h], o);
    if h + 1 < |files| {
      NextFile(r, start, files, t1, oldest, h, p.Stop());
      assert pieces[1..] == PiecesFrom(files, h + 1, 0);
      IngestAllCatchesUp(r, start, files, t1, oldest, h + 1, 0);
    } else {
      assert pieces[1..] == [];
      CompleteIsLast(files[h], 0, p.Stop());
      RowsOfComplete(r.parse, files[h], 0);
    }
  }

  lemma PollKeeps(r: Reader, start: Start, files: seq<Bytes>, backups: nat, t: Tables, g: nat, rotated: nat, t': Tables)
      returns (g': nat)
    requires r.Valid() && PollReady(r, files, backups, t, g) && ConsistentAt(r, start, files, t, g)
    requires IsRotatedIndex(r, Retained(files, backups), t.progress.value.identity, rotated)
    requires 0 in Retained(files, backups)
    requires Reached(r, t, Plan(r, Retained(files, backups), t.progress.value, rotated), t')
    ensures g <= g' && ConsistentAt(r, start, files, t', g')
    ensures t' == IngestAll(r, t, Plan(r, Retained(files, backups), t.progress.value, rotated)) ==>
      Covers(start, t', StreamRows(r, files))
  {
    PlanIsPieces(r, files, backups, t, g, rotated);
    assert ReadUpto(r, start, files, t, g, g, t.progress.value.offset);
    ReachedKeeps(r, start, files, t, g, g, t.progress.value.offset, t');
    IngestAllCatchesUp(r, start, files, t, g, g, t.progress.value.offset);
    g' :| g' >= g && ConsistentAt(r, start, files, t', g');
  }

  // ----- a write

  /** New bytes, in the same file or behind a rotation, leave every covered row where it was. */
  lemma WriteKeeps(r: Reader, start: Start, files: seq<Bytes>, t: Tables, g: nat, maxBytes: nat, data: Bytes)
    requires r.Valid() && files != [] && ConsistentAt(r, start, files, t, g)
    ensures ConsistentAt(r, start, Grow(files, maxBytes, data), t, g)
  {
    var files', o := Grow(files, maxBytes, data), t.progress.value.offset;
    assert files'[..g] == files[..g];
    if files'[g] != files[g] {
      assert files'[g] == files[g] + data;
      RowsOfGrown(r.parse, files[g], data, 0, o);
      assert files[g][o - 1] == NEWLINE;
      assert r.identify(files[g] + data) == r.identify(files[g]);
    }
  }

  // ----- whole runs

  /** `file` is the history index of the file the stored checkpoint names. */
  datatype World = World(files: seq<Bytes>, tables: Tables, file: nat)

  ghost predicate WriteStep(w: World, maxBytes: nat, w': World) {
    w.files != [] && exists data :: w' == w.(files := Grow(w.files, maxBytes, data))
  }

  /** A poll that ended, failed or was killed: a restart only loses memory the next poll does not use. */
  ghost predicate PollStep(r: Reader, backups: nat, w: World, w': World) {
    && PollReady(r, w.files, backups, w.tables, w.file) && 0 in Retained(w.files, backups)
    && w'.files == w.files
    && CheckpointAt(r, w'.files, w'.tables, w'.file) && InWindow(w'.files, backups, w'.file)
    && exists rotated ::
      && IsRotatedIndex(r, Retained(w.files, backups), w.tables.progress.value.identity, rotated)
      && Reached(r, w.tables, Plan(r, Retained(w.files, backups), w.tables.progress.value, rotated), w'.tables)
  }

  ghost predicate IsRun(r: Reader, maxBytes: nat, backups: nat, run: seq<World>) {
    forall i :: 0 <= i < |run| - 1 ==> WriteStep(run[i], maxBytes, run[i + 1]) || PollStep(r, backups, run[i], run[i + 1])
  }

  predicate Good(r: Reader, start: Start, w: World) {
    ConsistentAt(r, start, w.files, w.tables, w.file)
  }

  lemma WriteStepKeeps(r: Reader, start: Start, maxBytes: nat, w: World, w': World)
    requires r.Valid() && Good(r, start, w) && WriteStep(w, maxBytes, w')
    ensures Good(r, start, w')
  {
    var data :| w' == w.(files := Grow(w.files, maxBytes, data));
    WriteKeeps(r, start, w.files, w.tables, w.file, maxBytes, data);
  }

  lemma PollStepKeeps(r: Reader, start: Start, backups: nat, w: World, w': World)
    requires r.Valid() && Good(r, start, w) && PollStep(r, backups, w, w')
    ensures Good(r, start, w')
  {
    var rotated :| IsRotatedIndex(r, Retained(w.files, backups), w.tables.progress.value.identity, rotated)
      && Reached(r, w.tables, Plan(r, Retained(w.files, backups), w.tables.progress.value, rotated), w'.tables);
    var g' := PollKeeps(r, start, w.files, backups, w.tables, w.file, rotated, w'.tables);
    assert r.identify(w.files[g']) == r.identify(w.files[w'.file]);
    assert g' == w'.file;
  }

  /** Exactly-once ingestion: in every state of every run the table holds, in order, precisely the rows of
      the log stream from where the run began up to the stored checkpoint. */
  lemma {:induction false} ExactlyOnceOverRuns(r: Reader, start: Start, maxBytes: nat, backups: nat, run: seq<World>, i: nat)
    requires r.Valid() && run != [] && IsRun(r, maxBytes, backups, run) && Good(r, start, run[0])
    requires i < |run|
    ensures Good(r, start, run[i])
    decreases i
  {
    if i > 0 {
      ExactlyOnceOverRuns(r, start, maxBytes, backups, run, i - 1);
      if WriteStep(run[i - 1], maxBytes, run[i]) {
        WriteStepKeeps(r, start, maxBytes, run[i - 1], run[i]);
      } else {
        PollStepKeeps(r, start, backups, run[i - 1], run[i]);
      }
    }
  }

  /** Every way a poll can end is such a step: some file is the one its checkpoint names. */
  lemma EveryPollIsAStep(r: Reader, start: Start, backups: nat, w: World, rotated: nat, t': Tables) returns (w': World)
    requires r.Valid() && Good(r, start, w) && PollReady(r, w.files, backups, w.tables, w.file)
    requires 0 in Retained(w.files, backups) && IsRotatedIndex(r, Retained(w.files, backups), w.tables.progress.value.identity, rotated)
    requires Reached(r, w.tables, Plan(r, Retained(w.files, backups), w.tables.progress.value, rotated), t')
    ensures w'.tables == t' && w.file <= w'.file && PollStep(r, backups, w, w') && Good(r, start, w')
    ensures t' == IngestAll(r, w.tables, Plan(r, Retained(w.files, backups), w.tables.progress.value, rotated)) ==> CaughtUp(r, start, w')
  {
    var g' := PollKeeps(r, start, w.files, backups, w.tables, w.file, rotated, t');
    w' := World(w.files, t', g');
  }

  /** Every complete line of the log has its row. */
  predicate CaughtUp(r: Reader, start: Start, w: World) {
    Covers(start, w.tables, StreamRows(r, w.files))
  }

  // ----- the code itself: a writer and a tailer on one directory

  /** A line to write, with what every storage call reports, or a poll, which may fail anywhere unless it is calm. */
  datatype Event = WriteLine(data: Bytes, now: int, calls: Calls) | Poll(calm: bool)

  /** No storage error touches the write; the poll finds its checkpointed file, and no other, by its identity. */
  ghost predicate Ready(r: Reader, maxBytes: nat, backups: nat, w: World, e: Event) {
    && backups >= 1 && 0 in Retained(w.files, backups)
    && match e
       case WriteLine(data, _, calls) => Works(Retained(w.files, backups), maxBytes, backups, data, calls)
       case Poll(_) => PollReady(r, w.files, backups, w.tables, w.file)
  }

  /** What an event that is ready does. */
  ghost predicate Does(r: Reader, start: Start, maxBytes: nat, backups: nat, w: World, e: Event, w': World) {
    match e
    case WriteLine(data, _, _) => w.files != [] && w' == w.(files := Grow(w.files, maxBytes, data))
    case Poll(calm) => PollStep(r, backups, w, w') && (calm ==> CaughtUp(r, start, w'))
  }

  ghost predicate ReadyUpto(r: Reader, maxBytes: nat, backups: nat, run: seq<World>, events: seq<Event>, n: nat)
    requires n <= |events| && n <= |run|
  {
    forall k :: 0 <= k < n ==> Ready(r, maxBytes, backups, run[k], events[k])
  }

  /** As long as everything is ready, the run does what its first n events say. */
  ghost predicate IsRunOf(r: Reader, start: Start, maxBytes: nat, backups: nat, run: seq<World>, events: seq<Event>, n: nat) {
    && n <= |events| && |run| == n + 1
    && forall k :: 0 <= k < n && ReadyUpto(r, maxBytes, backups, run, events, k + 1) ==>
      Does(r, start, maxBytes, backups, run[k], events[k], run[k + 1])
  }

  /** Directory and tables are those of the world, and exact. */
  ghost predicate Linked(writer: RotatingWriter, tailer: Tailer, start: Start, w: World)
    reads writer, tailer.store
  {
    && writer.isOpen && w.files != [] && writer.dir == Retained(w.files, writer.backups)
    && tailer.store.State() == w.tables && Good(tailer.r, start, w)
  }

  /** Exactly-once ingestion by the code: whatever the schedule, directory and tables end as the run of worlds says, and
      exact, provided every event was ready when its turn came. */
  method RunPipeline(writer: RotatingWriter, tailer: Tailer, events: seq<Event>, ghost start: Start, ghost limit: nat, ghost w0: World)
      returns (ghost run: seq<World>)
    requires tailer.r.Valid() && writer.Valid() && Linked(writer, tailer, start, w0)
    requires Bounded(writer.dir, writer.backups, limit) && writer.maxBytes <= limit
    requires forall i :: 0 <= i < |events| && events[i].WriteLine? ==> |events[i].data| <= limit
    modifies writer, tailer.store
    ensures IsRunOf(tailer.r, start, writer.maxBytes, writer.backups, run, events, |events|) && run[0] == w0
    ensures ReadyUpto(tailer.r, writer.maxBytes, writer.backups, run, events, |events|) ==> Linked(writer, tailer, start, run[|events|])
    ensures writer.Valid() && Bounded(writer.dir, writer.backups, limit)
  {
    run := [w0];
    var cursor := Cursor(Unset, 0);
    for i := 0 to |events|
      invariant |run| == i + 1 && run[0] == w0
      invariant writer.Valid() && Bounded(writer.dir, writer.backups, limit)
      invariant IsRunOf(tailer.r, start, writer.maxBytes, writer.backups, run, events, i)
      invariant ReadyUpto(tailer.r, writer.maxBytes, writer.backups, run, events, i) ==> Linked(writer, tailer, start, run[i])
    {
      ghost var exact := ReadyUpto(tailer.r, writer.maxBytes, writer.backups, run, events, i);
      ghost var w;
      cursor, w := OneEvent(writer, tailer, events[i], cursor, limit, start, run[i], exact);
      OneMoreEvent(tailer.r, start, writer.maxBytes, writer.backups, run, events, i, w);
      run := run + [w];
    }
  }

  method OneEvent(writer: RotatingWriter, tailer: Tailer, e: Event, cursor: Cursor, ghost limit: nat, ghost start: Start, ghost w: World,
                  ghost exact: bool)
      returns (next: Cursor, ghost w': World)
    requires tailer.r.Valid() && writer.Valid() && (exact ==> Linked(writer, tailer, start, w))
    requires Bounded(writer.dir, writer.backups, limit) && writer.maxBytes <= limit && (e.WriteLine? ==> |e.data| <= limit)
    modifies writer, tailer.store
    ensures writer.Valid() && Bounded(writer.dir, writer.backups, limit)
    ensures exact && Ready(tailer.r, writer.maxBytes, writer.backups, w, e) ==>
      Linked(writer, tailer, start, w') && Does(tailer.r, start, writer.maxBytes, writer.backups, w, e, w')
  {
    next := cursor;
    match e {
      case WriteLine(data, now, calls) => w' := WriteOnce(writer, tailer, data, now, calls, limit, start, w, exact);
      case Poll(calm) => next, w' := PollOnce(writer, tailer, cursor, calm, start, w, exact);
    }
  }

  lemma OneMoreEvent(r: Reader, start: Start, maxBytes: nat, backups: nat, run: seq<World>, events: seq<Event>, i: nat, w: World)
    requires i < |events| && IsRunOf(r, start, maxBytes, backups, run, events, i)
    requires ReadyUpto(r, maxBytes, backups, run, events, i) && Ready(r, maxBytes, backups, run[i], events[i]) ==>
      Does(r, start, maxBytes, backups, run[i], events[i], w)
    ensures IsRunOf(r, start, maxBytes, backups, run + [w], events, i + 1)
    ensures ReadyUpto(r, maxBytes, backups, run + [w], events, i + 1) <==>
      ReadyUpto(r, maxBytes, backups, run, events, i) && Ready(r, maxBytes, backups, run[i], events[i])
  {
    var more := run + [w];
    assert forall j :: 0 <= j <= i ==> more[j] == run[j];
    forall k | 0 <= k <= i && ReadyUpto(r, maxBytes, backups, more, events, k + 1)
      ensures Does(r, start, maxBytes, backups, more[k], events[k], more[k + 1])
    {
      assert ReadyUpto(r, maxBytes, backups, run, events, k + 1);
    }
  }

  method PollOnce(writer: RotatingWriter, tailer: Tailer, cursor: Cursor, calm: bool, ghost start: Start, ghost w: World, ghost exact: bool)
      returns (next: Cursor, ghost w': World)
    requires tailer.r.Valid() && (exact ==> Linked(writer, tailer, start, w))
    modifies tailer.store
    ensures exact && Ready(tailer.r, writer.maxBytes, writer.backups, w, Poll(calm)) ==>
      Linked(writer, tailer, start, w') && Does(tailer.r, start, writer.maxBytes, writer.backups, w, Poll(calm), w')
  {
    w' := w;
    var ok;
    ghost var rotated;
    next, ok, rotated := tailer.ReadAvailable(writer.dir, cursor, calm);
    if exact && Ready(tailer.r, writer.maxBytes, writer.backups, w, Poll(calm)) {
      SearchFindsCheckpoint(tailer.r, w.files, writer.backups, w.tables, w.file, rotated);
      NoGap(w.files, writer.backups, rotated);
      w' := EveryPollIsAStep(tailer.r, start, writer.backups, w, rotated, tailer.store.State());
    }
  }

  lemma NoGap(files: seq<Bytes>, backups: nat, index: nat)
    requires files != [] && (index > 0 ==> index in Retained(files, backups))
    ensures forall i :: 0 <= i < index ==> i in Retained(files, backups)
  {
    forall i: nat | i < index
      ensures i in Retained(files, backups)
    {
      WindowAt(files, backups, index);
      WindowAt(files, backups, i);
    }
  }

  method WriteOnce(writer: RotatingWriter, tailer: Tailer, data: Bytes, now: int, calls: Calls, ghost limit: nat, ghost start: Start,
                   ghost w: World, ghost exact: bool)
      returns (ghost w': World)
    requires tailer.r.Valid() && writer.Valid() && (exact ==> Linked(writer, tailer, start, w))
    requires Bounded(writer.dir, writer.backups, limit) && |data| <= limit && writer.maxBytes <= limit
    modifies writer
    ensures writer.Valid() && Bounded(writer.dir, writer.backups, limit)
    ensures exact && Ready(tailer.r, writer.maxBytes, writer.backups, w, WriteLine(data, now, calls)) ==>
      Linked(writer, tailer, start, w') && Does(tailer.r, start, writer.maxBytes, writer.backups, w, WriteLine(data, now, calls), w')
  {
    w' := w;
    var n, e := writer.Write(data, now, calls, limit);
    if exact && Ready(tailer.r, writer.maxBytes, writer.backups, w, WriteLine(data, now, calls)) {
      WriteKeepsWindow(w.files, writer.maxBytes, writer.backups, data);
      WriteKeeps(tailer.r, start, w.files, w.tables, w.file, writer.maxBytes, data);
      w' := w.(files := Grow(w.files, writer.maxBytes, data));
    }
  }

  /** A run of the code in which everything was ready is one of the runs that exactly-once ingestion is proved for. */
  lemma ReadyRunsAreRuns(r: Reader, start: Start, maxBytes: nat, backups: nat, run: seq<World>, events: seq<Event>)
    requires IsRunOf(r, start, maxBytes, backups, run, events, |events|) && ReadyUpto(r, maxBytes, backups, run, events, |events|)
    ensures IsRun(r, maxBytes, backups, run)
  {
    forall i | 0 <= i < |run| - 1
      ensures WriteStep(run[i], maxBytes, run[i + 1]) || PollStep(r, backups, run[i], run[i + 1])
    {
      assert ReadyUpto(r, maxBytes, backups, run, events, i + 1);
      if events[i].WriteLine? {
        assert run[i + 1] == run[i].(files := Grow(run[i].files, maxBytes, events[i].data));
      }
    }
  }

  // ----- the stream behind the files

  /** The rows of two pieces, the first ending with a whole line, are the rows of both in one. */
  lemma RowsOfTwo(parse: Parser, a: Bytes, b: Bytes)
    requires IsBoundary(a, 0, |a|)
    ensures Rows(parse, a + b, 0, |a + b|) == Rows(parse, a, 0, |a|) + Rows(parse, b, 0, |b|)
  {
    assert |a| > 0 ==> (a + b)[|a| - 1] == a[|a| - 1];
    RowsSplit(parse, a + b, 0, |a|, |a + b|);
    RowsOfGrown(parse, a, b, 0, |a|);
    RowsShift(parse, a, b, 0, |b|, |a|, |a + b|);
  }

  predicate EndsWithLine(s: Bytes) {
    IsBoundary(s, 0, |s|)
  }

  lemma {:induction false} JoinEndsWithLine(files: seq<Bytes>)
    requires forall i :: 0 <= i < |files| ==> EndsWithLine(files[i])
    ensures EndsWithLine(Join(files))
    decreases |files|
  {
    if files != [] {
      var n := |files| - 1;
      JoinEndsWithLine(files[..n]);
      var a, b := Join(files[..n]), files[n];
      if b == [] {
        assert a + b == a;
      } else {
        assert EndsWithLine(files[n]);
        assert (a + b)[|a + b| - 1] == b[|b| - 1];
      }
    }
  }

  /** As long as every rotated file ends with a whole line, as it does when the writer is fed lines, the rows of
      the files are the rows of everything ever written, read as one stream. */
  lemma {:induction false} FilesAreOneStream(r: Reader, files: seq<Bytes>)
    requires forall i :: 0 <= i < |files| - 1 ==> EndsWithLine(files[i])
    ensures StreamRows(r, files) == Rows(r.parse, Join(files), 0, |Join(files)|)
    decreases |files|
  {
    if files != [] {
      var n := |files| - 1;
      FilesAreOneStream(r, files[..n]);
      JoinEndsWithLine(files[..n]);
      RowsOfTwo(r.parse, Join(files[..n]), files[n]);
    }
  }

  // ----- beyond the retained files

  /** The rows from offset o of file g to the start of file h. */
  function Between(r: Reader, files: seq<Bytes>, g: nat, o: nat, h: nat): seq<Entry>
    requires g < h < |files| && o <= |files[g]|
    decreases h
  {
    if h == g + 1 then Rows(r.parse, files[g], o, |files[g]|)
    else Between(r, files, g, o, h - 1) + Rows(r.parse, files[h - 1], 0, |files[h - 1]|)
  }

  lemma {:induction false} BetweenJoins(r: Reader, files: seq<Bytes>, g: nat, o: nat, h: nat)
    requires g < h < |files| && IsBoundary(files[g], 0, o)
    ensures Upto(r, files, g, o) + Between(r, files, g, o, h) == StreamRows(r, files[..h])
    decreases h
  {
    var before := StreamRows(r, files[..h]);
    assert files[..h][..h - 1] == files[..h - 1];
    if h == g + 1 {
      RowsSplit(r.parse, files[g], 0, o, |files[g]|);
      Associate(StreamRows(r, files[..g]), Rows(r.parse, files[g], 0, o), Rows(r.parse, files[g], o, |files[g]|));
    } else {
      BetweenJoins(r, files, g, o, h - 1);
      Associate(Upto(r, files, g, o), Between(r, files, g, o, h - 1), Rows(r.parse, files[h - 1], 0, |files[h - 1]|));
    }
  }

  /** The checkpointed file has been rotated away: the search finds nothing and a poll starts over at the active file. */
  lemma StartsOver(r: Reader, files: seq<Bytes>, backups: nat, t: Tables, g: nat)
    requires CheckpointAt(r, files, t, g) && r.Valid() && RotatedAway(r, files, backups, g)
    ensures IsRotatedIndex(r, Retained(files, backups), t.progress.value.identity, 0) && 0 in Retained(files, backups)
    ensures Plan(r, Retained(files, backups), t.progress.value, 0) == [Piece(files[|files| - 1], 0)]
  {
    forall i: nat | i in Retained(files, backups)
      ensures r.identify(Retained(files, backups)[i]) != t.progress.value.identity
    {
      WindowAt(files, backups, i);
    }
    WindowAt(files, backups, 0);
  }

  /** No retained file is the checkpointed one. */
  predicate RotatedAway(r: Reader, files: seq<Bytes>, backups: nat, g: nat) {
    g + 1 < |files| && forall i :: 0 <= i < |files| && |files| - 1 <= i + backups ==> r.identify(files[i]) != r.identify(files[g])
  }

  /** The rows then match the new checkpoint exactly when no line between the old one and the active file held a row. */
  lemma LostExactlyWhenRowsWereBetween(r: Reader, start: Start, files: seq<Bytes>, t: Tables, g: nat, stop: nat)
    requires ConsistentAt(r, start, files, t, g) && g + 1 < |files|
    requires IsBoundary(files[|files| - 1], 0, stop) && stop > 0
    ensures var t' := Ingest(r, t, Piece(files[|files| - 1], 0), stop);
      ConsistentAt(r, start, files, t', |files| - 1) <==> Between(r, files, g, t.progress.value.offset, |files| - 1) == []
  {
    var last, o := |files| - 1, t.progress.value.offset;
    var t' := Ingest(r, t, Piece(files[last], 0), stop);
    var more := Rows(r.parse, files[last], 0, stop);
    BetweenJoins(r, files, g, o, last);
    assert CheckpointAt(r, files, t', last) && t'.rows == t.rows + more;
    assert Upto(r, files, last, stop) == Upto(r, files, g, o) + Between(r, files, g, o, last) + more;
    LostRows(start, t, t', Upto(r, files, g, o), Between(r, files, g, o, last), more);
  }

  lemma LostRows(start: Start, t: Tables, t': Tables, upto: seq<Entry>, between: seq<Entry>, more: seq<Entry>)
    requires Covers(start, t, upto) && t'.rows == t.rows + more
    ensures Covers(start, t', upto + between + more) <==> between == []
  {
    CoversMore(start, t, upto, more, t');
    if between == [] {
      assert upto + between == upto;
    }
  }
}
