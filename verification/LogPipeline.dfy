/** Writer and tailer together: what is kept over whole runs. */
module LogPipeline {
  import opened LogLines
  import opened QueryLog
  import opened LogWriter

  // ----- every file ever written, oldest first; the last one is the active file

  function Retained(files: seq<Bytes>, backups: nat): Directory {
    map i: nat | i <= backups && IsFile(files, i) :: files[|files| - 1 - i]
  }

  predicate IsFile(files: seq<Bytes>, i: nat) {
    i < |files|
  }

  function Grow(files: seq<Bytes>, maxBytes: nat, data: Bytes): (r: seq<Bytes>)
    requires files != []
    ensures r != []
  {
    var last := |files| - 1;
    if |files[last]| > 0 && |files[last]| + |data| > maxBytes then files + [data]
    else files[..last] + [files[last] + data]
  }

  /** A write to the directory is a write to the history of files, seen through the retained window. */
  lemma WriteKeepsWindow(files: seq<Bytes>, maxBytes: nat, backups: nat, data: Bytes)
    requires files != [] && backups >= 1
    ensures Written(Retained(files, backups), maxBytes, backups, data) == Retained(Grow(files, maxBytes, data), backups)
  {
    var d, files' := Retained(files, backups), Grow(files, maxBytes, data);
    var w, d' := Written(d, maxBytes, backups, data), Retained(files', backups);
    if NeedsRotation(d, maxBytes, data) {
      var r := Shifted(d, backups, 0);
      forall i: nat
        ensures i in w <==> i in d'
        ensures i in w ==> w[i] == d'[i]
      {
        assert Taken(d, 0, i) <==> i > 0 && i - 1 in d;
        if i > 0 {
          assert i in r <==> i <= backups && i - 1 in d;
        }
      }
    } else {
      assert w.Keys == d'.Keys;
    }
  }

  // ----- rotation keeps a bounded suffix, cut only between writes

  function Join(writes: seq<Bytes>): Bytes {
    if writes == [] then [] else Join(writes[..|writes| - 1]) + writes[|writes| - 1]
  }

  function Flatten(segments: seq<seq<Bytes>>): seq<Bytes> {
    if segments == [] then [] else Flatten(segments[..|segments| - 1]) + segments[|segments| - 1]
  }

  /** The file contents when file i consists of the writes segments[i]. */
  function Contents(segments: seq<seq<Bytes>>): (files: seq<Bytes>)
    ensures |files| == |segments|
  {
    seq(|segments|, i requires 0 <= i < |segments| => Join(segments[i]))
  }

  function GrowSegments(segments: seq<seq<Bytes>>, maxBytes: nat, data: Bytes): (r: seq<seq<Bytes>>)
    requires segments != []
    ensures r != []
  {
    var last := |segments| - 1;
    var active := Join(segments[last]);
    if |active| > 0 && |active| + |data| > maxBytes then segments + [[data]]
    else segments[..last] + [segments[last] + [data]]
  }

  lemma GrowSegmentsIsGrow(segments: seq<seq<Bytes>>, maxBytes: nat, data: Bytes)
    requires segments != []
    ensures Contents(GrowSegments(segments, maxBytes, data)) == Grow(Contents(segments), maxBytes, data)
    ensures Flatten(GrowSegments(segments, maxBytes, data)) == Flatten(segments) + [data]
  {
    var last := |segments| - 1;
    var r := GrowSegments(segments, maxBytes, data);
    var n := |r| - 1;
    var s := segments[last] + [data];
    assert s[..|s| - 1] == segments[last];
    assert [data][..0] == [];
    assert [] + data == data;
    if n == last {
      assert r[..n] == segments[..last];
      Associate(Flatten(segments[..last]), segments[last], [data]);
    } else {
      assert r[..n] == segments;
      assert Join([data]) == data;
      assert forall i :: 0 <= i < |segments| ==> r[i] == segments[i];
      assert Contents(r) == Contents(segments) + [data];
    }
  }

  function GrowAll(segments: seq<seq<Bytes>>, maxBytes: nat, writes: seq<Bytes>): (r: seq<seq<Bytes>>)
    requires segments != []
    ensures r != []
  {
    if writes == [] then segments
    else
      var n := |writes| - 1;
      GrowSegments(GrowAll(segments, maxBytes, writes[..n]), maxBytes, writes[n])
  }

  lemma {:induction false} SegmentsHoldAllWrites(segments: seq<seq<Bytes>>, maxBytes: nat, writes: seq<Bytes>)
    requires segments != []
    ensures Flatten(GrowAll(segments, maxBytes, writes)) == Flatten(segments) + writes
    decreases |writes|
  {
    if writes == [] {
      assert Flatten(segments) + writes == Flatten(segments);
    } else {
      var n := |writes| - 1;
      SegmentsHoldAllWrites(segments, maxBytes, writes[..n]);
      GrowSegmentsIsGrow(GrowAll(segments, maxBytes, writes[..n]), maxBytes, writes[n]);
      assert writes == writes[..n] + [writes[n]];
      Associate(Flatten(segments), writes[..n], [writes[n]]);
    }
  }

  lemma {:induction false} WindowShowsSegments(segments: seq<seq<Bytes>>, maxBytes: nat, backups: nat, writes: seq<Bytes>)
    requires segments != [] && backups >= 1
    ensures WrittenAll(Retained(Contents(segments), backups), maxBytes, backups, writes)
         == Retained(Contents(GrowAll(segments, maxBytes, writes)), backups)
    decreases |writes|
  {
    if writes != [] {
      var n := |writes| - 1;
      WindowShowsSegments(segments, maxBytes, backups, writes[..n]);
      var before := GrowAll(segments, maxBytes, writes[..n]);
      GrowSegmentsIsGrow(before, maxBytes, writes[n]);
      WriteKeepsWindow(Contents(before), maxBytes, backups, writes[n]);
    }
  }

  lemma {:induction false} FlattenSplit(a: seq<seq<Bytes>>, k: nat)
    requires k <= |a|
    ensures Flatten(a) == Flatten(a[..k]) + Flatten(a[k..])
    decreases |a|
  {
    if k == |a| {
      assert a[..k] == a && a[k..] == [];
    } else {
      var n := |a| - 1;
      FlattenSplit(a[..n], k);
      assert a[..n][..k] == a[..k] && a[..n][k..] == a[k..][..n - k];
      Associate(Flatten(a[..k]), Flatten(a[k..][..n - k]), a[n]);
    }
  }

  /** No file grows beyond the size limit or, where that is longer, the longest single write. */
  lemma {:induction false} WritesStayBounded(d: Directory, maxBytes: nat, backups: nat, writes: seq<Bytes>, limit: nat)
    requires 0 in d && Bounded(d, backups, limit) && maxBytes <= limit
    requires forall i :: 0 <= i < |writes| ==> |writes[i]| <= limit
    ensures Bounded(WrittenAll(d, maxBytes, backups, writes), backups, limit)
    decreases |writes|
  {
    if writes != [] {
      WritesStayBounded(d, maxBytes, backups, writes[..|writes| - 1], limit);
    }
  }

  /** File i of the directory consists of the i-th newest of these groups of writes, and there are no others. */
  ghost predicate Shows(d: Directory, kept: seq<seq<Bytes>>) {
    && (forall i: nat :: i in d <==> i < |kept|)
    && (forall i: nat :: i < |kept| ==> d[i] == Join(kept[|kept| - 1 - i]))
  }

  /** Without storage errors, whatever is written: the files on disk, oldest to newest, consist of whole
      writes and are together the newest part of everything written; there are at most backups + 1 of them,
      numbered without gaps. */
  lemma RotationKeepsSuffix(segments: seq<seq<Bytes>>, maxBytes: nat, backups: nat, writes: seq<Bytes>)
      returns (lost: seq<Bytes>, kept: seq<seq<Bytes>>)
    requires segments != [] && backups >= 1
    ensures Flatten(segments) + writes == lost + Flatten(kept)
    ensures 0 < |kept| <= backups + 1 && (|kept| < backups + 1 ==> lost == [])
    ensures Shows(WrittenAll(Retained(Contents(segments), backups), maxBytes, backups, writes), kept)
  {
    SegmentsHoldAllWrites(segments, maxBytes, writes);
    var all := GrowAll(segments, maxBytes, writes);
    var k := if |all| > backups + 1 then |all| - backups - 1 else 0;
    FlattenSplit(all, k);
    lost, kept := Flatten(all[..k]), all[k..];
    WindowShowsSegments(segments, maxBytes, backups, writes);
    WindowIsNewest(all, backups, k);
  }

  lemma WindowIsNewest(all: seq<seq<Bytes>>, backups: nat, k: nat)
    requires all != [] && k == if |all| > backups + 1 then |all| - backups - 1 else 0
    ensures Shows(Retained(Contents(all), backups), all[k..])
  {
    forall i: nat
      ensures i in Retained(Contents(all), backups) <==> i < |all[k..]|
    {
      assert IsFile(Contents(all), i) <==> i < |all|;
    }
  }
}
