/** The rotating query-log writer. */
module LogWriter {
  import opened LogLines
  import opened QueryLog

  const RETRY_INTERVAL: nat := 30

  // ----- specification: what a write does to the log directory when storage works

  /** The directory while rotation moves names up: those above k hold what was one below, k itself is free. */
  function Shifted(d: Directory, backups: nat, k: nat): Directory {
    map i: nat | i <= backups && Taken(d, k, i) :: if i < k then d[i] else d[i - 1]
  }

  predicate Taken(d: Directory, k: nat, i: nat) {
    if i < k then i in d else i > k && i - 1 in d
  }

  function Renamed(d: Directory, from: nat, to: nat): Directory {
    if from in d then (d - {from})[to := d[from]] else d
  }

  lemma ShiftStep(d: Directory, backups: nat, k: nat)
    requires k < backups
    ensures Renamed(Shifted(d, backups, k + 1), k, k + 1) == Shifted(d, backups, k)
  {
    var m, m' := Renamed(Shifted(d, backups, k + 1), k, k + 1), Shifted(d, backups, k);
    forall i: nat
      ensures i in m <==> i in m'
    {
      assert Taken(d, k, i) <==> if i == k + 1 then k in d else i != k && Taken(d, k + 1, i);
    }
  }

  function Rotated(d: Directory, backups: nat): Directory {
    Shifted(d, backups, 0)[0 := []]
  }

  predicate NeedsRotation(d: Directory, maxBytes: nat, data: Bytes)
    requires 0 in d
  {
    |d[0]| > 0 && |d[0]| + |data| > maxBytes
  }

  function Written(d: Directory, maxBytes: nat, backups: nat, data: Bytes): Directory
    requires 0 in d
  {
    if NeedsRotation(d, maxBytes, data) then Rotated(d, backups)[0 := data]
    else d[0 := d[0] + data]
  }

  function WrittenAll(d: Directory, maxBytes: nat, backups: nat, writes: seq<Bytes>): (d': Directory)
    requires 0 in d
    ensures 0 in d'
  {
    if writes == [] then d
    else
      var n := |writes| - 1;
      Written(WrittenAll(d, maxBytes, backups, writes[..n]), maxBytes, backups, writes[n])
  }

  predicate Bounded(d: Directory, backups: nat, limit: nat) {
    forall i :: i in d ==> i <= backups && |d[i]| <= limit
  }

  // ----- the code

  /** What an operating-system call reports; a missing file is no error anywhere in this component. */
  datatype Io = Done | NoSpace | Failed

  /** What each call of an emergency reset reports. */
  datatype ResetCalls = ResetCalls(close: Io, remove: nat -> Io, truncate: Io, open: Io)

  /** What each call of a rotation reports; `newest` and `reopen` are the second attempt on a full device. */
  datatype RotateCalls = RotateCalls(close: Io, oldest: bool, rename: nat -> Io, open: Io, newest: Io, reopen: Io)

  /** An append takes some of the data before it fails. */
  datatype AppendCall = AppendCall(result: Io, taken: nat)

  /** What each call made for one write reports. */
  datatype Calls = Calls(revive: ResetCalls, rotate: RotateCalls, write: AppendCall, retry: ResetCalls, rewrite: AppendCall)

  /** The reset goes through: every call it has to make succeeds. */
  predicate Resets(d: Directory, isOpen: bool, backups: nat, calls: ResetCalls) {
    && (isOpen ==> calls.close.Done?)
    && (forall i :: 0 < i <= backups && i in d ==> calls.remove(i).Done?)
    && (0 in d ==> calls.truncate.Done?)
    && calls.open.Done?
  }

  /** Every file moves up by one. */
  predicate Renames(d: Directory, backups: nat, calls: RotateCalls) {
    calls.close.Done? && RenamesFrom(d, backups, calls, 0)
  }

  predicate RenamesFrom(d: Directory, backups: nat, calls: RotateCalls, from: int) {
    forall i :: from <= i < backups && i in d ==> calls.rename(i).Done?
  }

  /** The oldest backup goes away: it is removed, missing or overwritten. */
  predicate DropsOldest(d: Directory, backups: nat, calls: RotateCalls)
    requires backups >= 1
  {
    calls.oldest || backups !in d || backups - 1 in d
  }

  /** The rotation goes through. */
  predicate Rotates(d: Directory, backups: nat, calls: RotateCalls)
    requires backups >= 1
  {
    Renames(d, backups, calls) && DropsOldest(d, backups, calls) && calls.open.Done?
  }

  predicate Fits(d: Directory, maxBytes: nat, backups: nat, i: nat)
    requires i in d
  {
    i <= backups && |d[i]| <= maxBytes
  }

  /** Every call that starting over this directory has to make succeeds. */
  predicate Starts(d: Directory, maxBytes: nat, backups: nat, remove: nat -> Io, truncate: Io, open: Io) {
    && (forall i :: i in d && i > 0 && !Fits(d, maxBytes, backups, i) ==> remove(i).Done?)
    && (0 in d && |d[0]| > maxBytes ==> truncate.Done?)
    && open.Done?
  }

  /** No storage error touches this write. */
  predicate Works(d: Directory, maxBytes: nat, backups: nat, data: Bytes, calls: Calls)
    requires 0 in d && backups >= 1
  {
    (NeedsRotation(d, maxBytes, data) ==> Rotates(d, backups, calls.rotate)) && calls.write.result.Done?
  }

  /** The device fills up, and everything kept so far is given up for the new line. */
  predicate Overflows(d: Directory, maxBytes: nat, backups: nat, data: Bytes, calls: Calls)
    requires 0 in d
  {
    && !NeedsRotation(d, maxBytes, data) && calls.write.result.NoSpace?
    && Resets(d, true, backups, calls.retry) && calls.rewrite.result.Done?
  }

  /** Every call a rotation makes succeeds at once. */
  ghost predicate RotationDone(calls: RotateCalls) {
    calls.close.Done? && calls.oldest && (forall i :: calls.rename(i).Done?) && calls.open.Done?
  }

  /** Every file is one name higher, the oldest is gone, and the active file holds the data. */
  ghost predicate MovedUp(d: Directory, d': Directory, backups: nat, data: Bytes) {
    && 0 in d' && d'[0] == data
    && (forall i: nat :: i + 1 in d' <==> i in d && i < backups)
    && (forall i: nat :: i in d && i < backups ==> i + 1 in d' && d'[i + 1] == d[i])
  }

  lemma WrittenIs(d: Directory, maxBytes: nat, backups: nat, data: Bytes)
    requires 0 in d && backups >= 1
    ensures |d[0]| == 0 || |d[0]| + |data| <= maxBytes ==> Written(d, maxBytes, backups, data) == d[0 := d[0] + data]
    ensures |d[0]| > 0 && |d[0]| + |data| > maxBytes ==> MovedUp(d, Written(d, maxBytes, backups, data), backups, data)
  {
    forall i: nat
      ensures i + 1 in Rotated(d, backups) <==> i in d && i < backups
    {
      assert Taken(d, 0, i + 1) <==> i in d;
    }
  }

  class RotatingWriter {
    const maxBytes: nat
    const backups: nat
    var dir: Directory
    var isOpen: bool
    var size: nat
    var retryAt: int

    /** The tracked size is the length of the active file whenever the file is open. */
    ghost predicate Valid()
      reads this
    {
      && maxBytes >= 1 && backups >= 1
      && (isOpen ==> 0 in dir && size == |dir[0]|)
    }

    constructor Over(dir: Directory, maxBytes: nat, backups: nat)
      requires maxBytes >= 1 && backups >= 1
      ensures Valid() && !isOpen && retryAt == 0
      ensures this.dir == dir && this.maxBytes == maxBytes && this.backups == backups
    {
      this.dir, this.maxBytes, this.backups := dir, maxBytes, backups;
      isOpen, size, retryAt := false, 0, 0;
    }

    /** Start-up: drop backups beyond the retained number or over the limit, empty an oversized active
        file, then open it. Whatever was on disk before, the directory is bounded afterwards. */
    method Start(remove: nat -> Io, truncate: Io, open: Io) returns (e: Io)
      requires Valid() && !isOpen
      modifies this
      ensures Valid() && retryAt == old(retryAt)
      ensures e.Done? <==> Starts(old(dir), maxBytes, backups, remove, truncate, open)
      ensures e.Done? ==> isOpen && Bounded(dir, backups, maxBytes)
      ensures e.Done? ==> forall i :: i in old(dir) && i <= backups && |old(dir)[i]| <= maxBytes ==> i in dir && dir[i] == old(dir)[i]
      ensures e.Done? ==> forall i :: i in dir && i > 0 ==> i in old(dir) && dir[i] == old(dir)[i]
    {
      e := ReclaimBackups(remove);
      if !e.Done? {
        return;
      }
      if 0 in dir && |dir[0]| > maxBytes {
        if !truncate.Done? {
          return truncate;
        }
        dir := dir[0 := []];
      }
      e := Open(open);
    }

    method ReclaimBackups(remove: nat -> Io) returns (e: Io)
      requires !isOpen
      modifies this`dir
      ensures e.Done? <==> forall i :: i in old(dir) && i > 0 && !Fits(old(dir), maxBytes, backups, i) ==> remove(i).Done?
      ensures e.Done? ==> forall i :: i in dir <==> i in old(dir) && (i == 0 || Fits(old(dir), maxBytes, backups, i))
      ensures forall i :: i in dir ==> i in old(dir) && dir[i] == old(dir)[i]
    {
      ghost var d := dir;
      var matches := dir.Keys - {0};
      e := Done;
      while matches != {}
        invariant matches <= d.Keys && 0 !in matches
        invariant forall i :: i in dir ==> i in d && dir[i] == d[i]
        invariant forall i :: i in d ==> (i in dir <==> i == 0 || i in matches || Fits(d, maxBytes, backups, i))
        invariant forall i :: i in d && i > 0 && i !in matches && !Fits(d, maxBytes, backups, i) ==> remove(i).Done?
        decreases |matches|
      {
        var index: nat :| index in matches;
        matches := matches - {index};
        if !(index <= backups && |dir[index]| <= maxBytes) {
          if !remove(index).Done? {
            return remove(index);
          }
          dir := dir - {index};
        }
      }
    }

    /** Create the active file if it is missing and take its length. */
    method Open(call: Io) returns (e: Io)
      requires Valid() && !isOpen
      modifies this
      ensures Valid() && retryAt == old(retryAt) && e == call
      ensures e.Done? ==> isOpen && dir == if 0 in old(dir) then old(dir) else old(dir)[0 := []]
      ensures !e.Done? ==> !isOpen && dir == old(dir)
    {
      e := call;
      if e.Done? {
        if 0 !in dir {
          dir := dir[0 := []];
        }
        isOpen, size := true, |dir[0]|;
      }
    }

    method Close(call: Io) returns (e: Io)
      requires Valid()
      modifies this
      ensures Valid() && !isOpen && dir == old(dir) && retryAt == old(retryAt)
      ensures e == if old(isOpen) then call else Done
    {
      e := Done;
      if isOpen {
        e := call;
        isOpen := false;
      }
    }

    /** Shift path.i to path.(i+1), the active file to path.1, and start an empty active file. */
    method Rotate(calls: RotateCalls, ghost limit: nat) returns (e: Io)
      requires Valid() && isOpen && Bounded(dir, backups, limit)
      modifies this
      ensures Valid() && retryAt == old(retryAt) && Bounded(dir, backups, limit)
      ensures e.Done? ==> isOpen && size == 0 && Renames(old(dir), backups, calls)
      ensures e.Done? ==>
        && calls.close.Done? && (forall i :: 0 <= i < backups && i in old(dir) ==> calls.rename(i).Done?)
        && (calls.open.Done? || (calls.open.NoSpace? && calls.newest.Done? && calls.reopen.Done?))
      ensures Rotates(old(dir), backups, calls) ==> e.Done? && dir == Rotated(old(dir), backups)
      ensures Renames(old(dir), backups, calls) && DropsOldest(old(dir), backups, calls) ==>
        (calls.open.NoSpace? && calls.newest.Done? && calls.reopen.Done? ==> e.Done? && dir == Rotated(old(dir), backups) - {1})
      ensures Renames(old(dir), backups, calls) && calls.open.NoSpace? && !calls.newest.Done? ==> e.NoSpace?
    {
      e := Close(calls.close);
      if !e.Done? {
        return;
      }
      e := MoveUp(calls, limit);
      if !e.Done? {
        return;
      }
      e := Open(calls.open);
      if e.NoSpace? {
        if !calls.newest.Done? {
          return;
        }
        dir := dir - {1};
        e := Open(calls.reopen);
      }
    }

    /** The renames of a rotation, from the oldest backup down to the active file. */
    method MoveUp(calls: RotateCalls, ghost limit: nat) returns (e: Io)
      requires backups >= 1 && 0 in dir && Bounded(dir, backups, limit)
      modifies this`dir
      ensures Bounded(dir, backups, limit)
      ensures e.Done? <==> RenamesFrom(old(dir), backups, calls, 0)
      ensures e.Done? ==> 0 !in dir && 1 in dir
      ensures e.Done? && DropsOldest(old(dir), backups, calls) ==> dir == Shifted(old(dir), backups, 0)
    {
      ghost var d := dir;
      if calls.oldest {
        dir := dir - {backups};
      }
      FirstShift(d, dir, backups, calls.oldest);
      NothingMoved(d, dir, backups, calls, limit);
      e := MoveEach(calls, limit, d, dir);
    }

    method MoveEach(calls: RotateCalls, ghost limit: nat, ghost d: Directory, ghost d0: Directory) returns (e: Io)
      requires backups >= 1 && 0 in d && Bounded(dir, backups, limit) && Moved(d, d0, dir, backups, backups - 1, calls)
      requires DropsOldest(d, backups, calls) ==> Renamed(d0, backups - 1, backups) == Shifted(d, backups, backups - 1)
      modifies this`dir
      ensures Bounded(dir, backups, limit)
      ensures e.Done? ==> Moved(d, d0, dir, backups, -1, calls)
      ensures !e.Done? ==> exists i :: 0 <= i < backups && i in d && !calls.rename(i).Done?
    {
      e := Done;
      var index := backups - 1;
      while index >= 0
        invariant -1 <= index < backups && Bounded(dir, backups, limit)
        invariant Moved(d, d0, dir, backups, index, calls)
      {
        if index in dir && !calls.rename(index).Done? {
          assert index in d;
          return calls.rename(index);
        }
        OneMoved(d, d0, dir, backups, index, calls, limit);
        dir := Renamed(dir, index, index + 1);
        index := index - 1;
      }
    }

    /** Drop every backup and the contents of the active file. */
    method EmergencyReset(calls: ResetCalls, ghost limit: nat) returns (e: Io)
      requires Valid() && Bounded(dir, backups, limit)
      modifies this
      ensures Valid() && retryAt == old(retryAt) && Bounded(dir, backups, limit)
      ensures e.Done? <==> Resets(old(dir), old(isOpen), backups, calls)
      ensures e.Done? <==>
        && (old(isOpen) ==> calls.close.Done?) && (forall i :: 0 < i <= backups && i in old(dir) ==> calls.remove(i).Done?)
        && (0 in old(dir) ==> calls.truncate.Done?) && calls.open.Done?
      ensures e.Done? ==> isOpen && size == 0 && dir == map[0 := []]
    {
      e := Close(calls.close);
      if !e.Done? {
        return;
      }
      e := DropBackups(calls, limit);
      if !e.Done? {
        return;
      }
      if 0 in dir {
        e := calls.truncate;
        if !e.Done? {
          return;
        }
        dir := dir[0 := []];
      }
      e := Open(calls.open);
    }

    method DropBackups(calls: ResetCalls, ghost limit: nat) returns (e: Io)
      requires Bounded(dir, backups, limit)
      modifies this`dir
      ensures Bounded(dir, backups, limit) && (0 in dir <==> 0 in old(dir))
      ensures e.Done? <==> forall i :: 0 < i <= backups && i in old(dir) ==> calls.remove(i).Done?
      ensures e.Done? ==> forall i :: i in dir ==> i == 0
    {
      e := Done;
      for index := 1 to backups + 1
        invariant Bounded(dir, backups, limit)
        invariant forall i :: 0 < i < index ==> i !in dir
        invariant forall i :: i == 0 || i >= index ==> (i in dir <==> i in old(dir))
        invariant forall i :: 0 < i < index && i in old(dir) ==> calls.remove(i).Done?
      {
        if index in dir {
          if !calls.remove(index).Done? {
            return calls.remove(index);
          }
          dir := dir - {index};
        }
      }
    }

    /** Full storage pauses persistence and swallows the line; any other error is reported. */
    method HandleStorageError(e: Io, now: int) returns (handled: bool)
      requires Valid() && !e.Done?
      modifies this
      ensures Valid() && dir == old(dir) && handled == e.NoSpace?
      ensures handled ==> !isOpen && retryAt == now + 30
      ensures !handled ==> retryAt == old(retryAt)
    {
      if e != NoSpace {
        return false;
      }
      var _ := Close(Done); // an error of closing is only logged
      retryAt := now + RETRY_INTERVAL;
      handled := true;
    }

    method PrepareForWrite(data: Bytes, now: int, calls: Calls, ghost limit: nat) returns (handled: bool, e: Io)
      requires Valid() && Bounded(dir, backups, limit)
      modifies this
      ensures Valid() && Bounded(dir, backups, limit)
      ensures !handled && e.Done? ==> isOpen && (size == 0 || size + |data| <= maxBytes)
      ensures handled ==> !isOpen
      ensures !old(isOpen) && now < old(retryAt) ==> handled && dir == old(dir) && retryAt == old(retryAt)
      ensures !old(isOpen) && now >= old(retryAt) && Resets(old(dir), false, backups, calls.revive) ==>
        !handled && e.Done? && dir == map[0 := []]
      ensures old(isOpen) && !NeedsRotation(old(dir), maxBytes, data) ==> !handled && e.Done? && dir == old(dir) && retryAt == old(retryAt)
      ensures old(isOpen) && NeedsRotation(old(dir), maxBytes, data) && Rotates(old(dir), backups, calls.rotate) ==>
        !handled && e.Done? && dir == Rotated(old(dir), backups) && retryAt == old(retryAt)
    {
      handled, e := false, Done;
      if !isOpen {
        if now < retryAt {
          return true, Done;
        }
        e := EmergencyReset(calls.revive, limit);
      } else if size > 0 && size + |data| > maxBytes {
        e := Rotate(calls.rotate, limit);
      }
      if !e.Done? {
        handled := HandleStorageError(e, now);
      }
    }

    /** Append as much of data as the device takes. */
    method Append(data: Bytes, call: AppendCall) returns (n: nat, e: Io)
      requires Valid() && isOpen
      modifies this
      ensures Valid() && isOpen && retryAt == old(retryAt) && e == call.result
      ensures n == if e.Done? || call.taken > |data| then |data| else call.taken
      ensures dir == old(dir)[0 := old(dir)[0] + data[..n]]
    {
      e := call.result;
      n := if e.Done? || call.taken > |data| then |data| else call.taken;
      dir := dir[0 := dir[0] + data[..n]];
      size := size + n;
    }

    /** Write one line. Without storage errors exactly what the specification says happens to the directory; with them the
        line may be lost, but the directory stays bounded and the size true. */
    method Write(data: Bytes, now: int, calls: Calls, ghost limit: nat) returns (n: nat, e: Io)
      requires Valid() && Bounded(dir, backups, limit)
      requires |data| <= limit && maxBytes <= limit
      modifies this
      ensures Valid() && Bounded(dir, backups, limit)
      ensures old(isOpen) && Works(old(dir), maxBytes, backups, data, calls) ==>
        e.Done? && n == |data| && isOpen && dir == Written(old(dir), maxBytes, backups, data) && retryAt == old(retryAt)
      ensures !old(isOpen) && now < old(retryAt) ==> e.Done? && n == |data| && !isOpen && dir == old(dir) && retryAt == old(retryAt)
      ensures !old(isOpen) && now >= old(retryAt) && Resets(old(dir), false, backups, calls.revive) && calls.write.result.Done? ==>
        e.Done? && n == |data| && isOpen && dir == map[0 := data]
      ensures old(isOpen) && Overflows(old(dir), maxBytes, backups, data, calls) ==>
        e.Done? && n == |data| && isOpen && dir == map[0 := data]
      ensures old(isOpen) && calls.write.result.Done? && (|old(dir)[0]| == 0 || |old(dir)[0]| + |data| <= maxBytes) ==>
        e.Done? && n == |data| && isOpen && dir == old(dir)[0 := old(dir)[0] + data]
      ensures old(isOpen) && RotationDone(calls.rotate) && calls.write.result.Done? ==>
        (|old(dir)[0]| > 0 && |old(dir)[0]| + |data| > maxBytes ==>
          e.Done? && n == |data| && isOpen && MovedUp(old(dir), dir, backups, data))
    {
      if isOpen {
        WrittenIs(dir, maxBytes, backups, data);
      }
      var handled;
      handled, e := PrepareForWrite(data, now, calls, limit);
      if handled {
        return |data|, Done;
      }
      if !e.Done? {
        return 0, e;
      }
      assert data[..|data|] == data && [] + data == data;
      n, e := Append(data, calls.write);
      if e.NoSpace? {
        n, e := RetryAfterStorageFull(data, n, now, calls, limit);
      }
    }

    method RetryAfterStorageFull(data: Bytes, written: nat, now: int, calls: Calls, ghost limit: nat) returns (n: nat, e: Io)
      requires Valid() && isOpen && Bounded(dir, backups, limit) && |data| <= limit
      modifies this
      ensures Valid() && Bounded(dir, backups, limit)
      ensures Resets(old(dir), true, backups, calls.retry) && calls.rewrite.result.Done? ==>
        e.Done? && n == |data| && isOpen && dir == map[0 := data]
    {
      var handled;
      var reset := EmergencyReset(calls.retry, limit);
      if !reset.Done? {
        handled := HandleStorageError(reset, now);
        return if handled then |data| else written, if handled then Done else Failed;
      }
      assert data[..|data|] == data && [] + data == data;
      n, e := Append(data, calls.rewrite);
      if !e.Done? {
        handled := HandleStorageError(e, now);
        return if handled then |data| else n, if handled then Done else e;
      }
    }
  }

  /** The files above index have moved up; index and those below are where they were. */
  ghost predicate Moved(d: Directory, d0: Directory, dir: Directory, backups: nat, index: int, calls: RotateCalls)
    requires backups >= 1 && index >= -1
  {
    && (forall i :: 0 <= i <= index ==> (i in dir <==> i in d))
    && RenamesFrom(d, backups, calls, index + 1)
    && (DropsOldest(d, backups, calls) ==> dir == if index == backups - 1 then d0 else Shifted(d, backups, index + 1))
    && (index == -1 ==> 0 !in dir && 1 in dir)
  }

  lemma NothingMoved(d: Directory, d0: Directory, backups: nat, calls: RotateCalls, limit: nat)
    requires backups >= 1 && Bounded(d, backups, limit) && d0 == if calls.oldest then d - {backups} else d
    ensures Moved(d, d0, d0, backups, backups - 1, calls) && Bounded(d0, backups, limit)
  {
  }

  lemma OneMoved(d: Directory, d0: Directory, dir: Directory, backups: nat, index: nat, calls: RotateCalls, limit: nat)
    requires 0 in d && index < backups && Bounded(dir, backups, limit) && Moved(d, d0, dir, backups, index, calls)
    requires index in dir ==> calls.rename(index).Done?
    requires DropsOldest(d, backups, calls) ==> Renamed(d0, backups - 1, backups) == Shifted(d, backups, backups - 1)
    ensures Moved(d, d0, Renamed(dir, index, index + 1), backups, index - 1, calls)
    ensures Bounded(Renamed(dir, index, index + 1), backups, limit)
  {
    ShiftStep(d, backups, index);
    RenamedIs(dir, index, index + 1);
  }

  lemma RenamedIs(d: Directory, from: nat, to: nat)
    requires from != to
    ensures from !in Renamed(d, from, to)
    ensures forall i :: i != from && i != to ==> (i in Renamed(d, from, to) <==> i in d)
    ensures forall i :: i in Renamed(d, from, to) ==>
      if i == to && from in d then Renamed(d, from, to)[i] == d[from] else i in d && Renamed(d, from, to)[i] == d[i]
    ensures from in d ==> to in Renamed(d, from, to)
  {
  }

  /** The first rename overwrites an oldest backup that could not be removed. */
  lemma FirstShift(d: Directory, d0: Directory, backups: nat, oldest: bool)
    requires backups >= 1 && d0 == if oldest then d - {backups} else d
    requires forall i :: i in d ==> i <= backups
    ensures oldest || backups !in d || backups - 1 in d ==> Renamed(d0, backups - 1, backups) == Shifted(d, backups, backups - 1)
  {
    var m, m' := Renamed(d0, backups - 1, backups), Shifted(d, backups, backups - 1);
    if oldest || backups !in d || backups - 1 in d {
      forall i: nat
        ensures i in m <==> i in m'
      {
        assert Taken(d, backups - 1, i) <==> if i < backups - 1 then i in d else i > backups - 1 && i - 1 in d;
      }
    }
  }
}
