/**
 That the spool gets on: what a reader has read can be acknowledged, which leaves exactly
 the rest; a process that is killed resumes where it stood; and an append with working
 storage ends as a record that can be read.
 */
module SpoolProgress {
  import opened Framing
  import opened SpoolModel
  import opened SpoolReading
  import opened SpoolSafety
  import opened SpoolReaders
  import R = SpoolRuns
  import P = Pipeline

  // Where pending records end.

  /** `p` ends a record of a listed segment within what may be read. */
  ghost predicate EndsIn(st: Store, j: nat, p: Position) {
    && j < |st.mem.segments| && st.mem.segments[j].id == p.segment && p.segment in st.disk.files
    && 0 < p.offset <= st.mem.segments[j].size && Boundary(st.disk.files[p.segment].bytes, p.offset)
  }

  lemma HereEndsIn(st: Store, i: nat, offset: nat, k: nat)
    requires Readable(st) && i < |st.mem.segments| && k < |HereFrom(st, i, offset)|
    ensures EndsIn(st, i, HereFrom(st, i, offset)[k].end) && HereFrom(st, i, offset)[k].end.offset > offset
  {
    var found := RecordsFrom(Contents(st, i), offset);
    assert Boundary(Contents(st, i), found[k].end);
  }

  lemma {:induction false} PendingFromEnds(st: Store, i: nat, offset: nat, k: nat) returns (j: nat)
    requires Readable(st) && i < |st.mem.segments| && k < |PendingFrom(st, i, offset)|
    ensures i <= j && EndsIn(st, j, PendingFrom(st, i, offset)[k].end)
    ensures j == i ==> PendingFrom(st, i, offset)[k].end.offset > offset
    decreases |st.mem.segments| - i
  {
    hide Readable, HereFrom, PendingFrom;
    HereThenRest(st, i, offset);
    var here := HereFrom(st, i, offset);
    if k < |here| {
      HereEndsIn(st, i, offset, k);
      j := i;
    } else {
      if i + 1 == |st.mem.segments| {
        NothingFrom(st);
      }
      j := PendingFromEnds(st, i + 1, 0, k - |here|);
    }
  }

  /** A pending record ends after the position it is pending from, in a listed segment, by the commit point. */
  lemma PendingEnds(st: Store, from: Position, k: nat) returns (j: nat)
    requires Readable(st) && k < |Pending(st, from)|
    ensures EndsIn(st, j, Pending(st, from)[k].end) && from.Before(Pending(st, from)[k].end)
    ensures Pending(st, from)[k].end.UpTo(st.mem.committed)
  {
    PendingBelow(st, from, k);
    var i := IndexOf(st.mem.segments, from.segment);
    PendingIs(st, from);
    if i == |st.mem.segments| {
      NothingFrom(st);
    }
    j := PendingFromEnds(st, i, StartIn(st, i, from), k);
    assert j > i ==> st.mem.segments[i].id < st.mem.segments[j].id;
    hide Pending, PendingFrom;
  }

  // Deleting what is delivered leaves what is pending.

  /** `st1` is `st` without its first n segments. */
  ghost predicate Without(st: Store, st1: Store, n: nat) {
    && n < |st.mem.segments| && st1.mem.segments == st.mem.segments[n..] && st1.mem.committed == st.mem.committed
    && (forall id :: id in st.disk.files ==> id in st1.disk.files && st1.disk.files[id].bytes == st.disk.files[id].bytes)
  }

  lemma WithoutReadable(st: Store, st1: Store, n: nat)
    requires Readable(st) && Without(st, st1, n)
    ensures Readable(st1)
  {
  }

  lemma WithoutHere(st: Store, st1: Store, n: nat, i: nat, offset: nat)
    requires Readable(st) && Readable(st1) && Without(st, st1, n) && n <= i < |st.mem.segments|
    ensures HereFrom(st1, i - n, offset) == HereFrom(st, i, offset)
  {
    assert st1.mem.segments[i - n] == st.mem.segments[i];
  }

  lemma WithoutSize(st: Store, st1: Store, n: nat)
    requires Without(st, st1, n)
    ensures |st1.mem.segments| == |st.mem.segments| - n
  {
  }

  lemma EndOfList(st: Store, offset: nat)
    requires Readable(st)
    ensures PendingFrom(st, |st.mem.segments|, offset) == []
  {
  }

  lemma {:induction false} WithoutFrom(st: Store, st1: Store, n: nat, i: nat, offset: nat)
    requires Readable(st) && Readable(st1) && Without(st, st1, n) && n <= i <= |st.mem.segments|
    ensures PendingFrom(st1, i - n, offset) == PendingFrom(st, i, offset)
    decreases |st.mem.segments| - i
  {
    hide Readable, HereFrom, PendingFrom, Without;
    WithoutSize(st, st1, n);
    if i == |st.mem.segments| {
      EndOfList(st, offset);
      EndOfList(st1, offset);
    } else {
      WithoutHere(st, st1, n, i, offset);
      HereThenRest(st, i, offset);
      HereThenRest(st1, i - n, offset);
      WithoutFrom(st, st1, n, i + 1, 0);
    }
  }

  lemma RemoveIsWithout(st: Store, removals: nat) returns (n: nat)
    requires Readable(st) && st.mem.segments != []
    ensures Without(st, RemoveDelivered(st, removals).0, n) && Readable(RemoveDelivered(st, removals).0)
    ensures Gone(st.mem.segments, n, st.mem.checkpoint)
  {
    hide Sum, Readable, Ids;
    var all := Delivered(st.mem.segments, st.mem.checkpoint);
    n := if all <= removals then all else removals;
    DeliveredCounts(st.mem.segments, st.mem.checkpoint);
    hide Delivered;
    WithoutReadable(st, RemoveDelivered(st, removals).0, n);
  }

  /** From the checkpoint on, deletion changes nothing of what is pending. */
  lemma RemovePending(st: Store, removals: nat, from: Position)
    requires Readable(st) && st.mem.segments != [] && st.mem.checkpoint.UpTo(from)
    ensures Readable(RemoveDelivered(st, removals).0)
    ensures Pending(RemoveDelivered(st, removals).0, from) == Pending(st, from)
  {
    var n := RemoveIsWithout(st, removals);
    var st1 := RemoveDelivered(st, removals).0;
    ReadableLists(st);
    ReadableLists(st1);
    hide RemoveDelivered;
    WithoutPending(st, st1, n, from);
  }

  lemma ReadableLists(st: Store)
    requires Readable(st) && st.mem.segments != []
    ensures SpoolReaders.Listed(st)
  {
  }

  lemma WithoutPending(st: Store, st1: Store, n: nat, from: Position)
    requires Readable(st) && Readable(st1) && SpoolReaders.Listed(st) && SpoolReaders.Listed(st1) && Without(st, st1, n)
    requires Gone(st.mem.segments, n, from)
    ensures Pending(st1, from) == Pending(st, from)
  {
    hide Readable, Pending, SpoolReaders.Listed, Without, Gone;
    if IndexOf(st.mem.segments, from.segment) < n {
      WithoutPassed(st, st1, n, from);
    } else {
      WithoutAhead(st, st1, n, from);
    }
  }

  /** The position stands at the end of the last deleted segment. */
  lemma WithoutPassed(st: Store, st1: Store, n: nat, from: Position)
    requires Readable(st) && Readable(st1) && SpoolReaders.Listed(st) && SpoolReaders.Listed(st1) && Without(st, st1, n)
    requires Gone(st.mem.segments, n, from) && IndexOf(st.mem.segments, from.segment) < n
    ensures Pending(st1, from) == Pending(st, from)
  {
    var s, i := st.mem.segments, IndexOf(st.mem.segments, from.segment);
    hide Readable, PendingFrom, Limit;
    PendingIs(st, from);
    PendingIs(st1, from);
    assert s[n - 1].End().UpTo(from);
    assert s[i].id <= s[n - 1].id <= from.segment;
    assert i == n - 1;
    LimitFits(st, i);
    SkipDone(st, from, i);
    PendingAt(st, n);
    WithoutFrom(st, st1, n, n, 0);
    assert st1.mem.segments[0] == s[n];
  }

  /** The position stands in a segment that stays, or past them all. */
  lemma WithoutAhead(st: Store, st1: Store, n: nat, from: Position)
    requires Readable(st) && Readable(st1) && SpoolReaders.Listed(st) && SpoolReaders.Listed(st1) && Without(st, st1, n)
    requires IndexOf(st.mem.segments, from.segment) >= n
    ensures Pending(st1, from) == Pending(st, from)
  {
    var s, i := st.mem.segments, IndexOf(st.mem.segments, from.segment);
    hide Readable, PendingFrom, Limit;
    PendingIs(st, from);
    PendingIs(st1, from);
    WithoutIndex(s, st1.mem.segments, n, from.segment);
    WithoutFrom(st, st1, n, i, StartIn(st, i, from));
    assert i < |s| ==> st1.mem.segments[i - n] == s[i];
  }

  lemma WithoutIndex(s: seq<Segment>, s1: seq<Segment>, n: nat, id: nat)
    requires n <= IndexOf(s, id) && n <= |s| && s1 == s[n..]
    ensures IndexOf(s1, id) == IndexOf(s, id) - n
    decreases n
  {
    var i := IndexOf(s, id);
    assert forall j :: 0 <= j < i - n ==> s1[j].id == s[j + n].id < id;
    assert i < |s| ==> s1[i - n].id == s[i].id;
  }

  // Acknowledging.

  predicate AckWorks(st: Store, io: AckIO) {
    io.boundaryRead && io.save == SaveDone && io.removals >= |st.mem.segments|
  }

  /** Which positions after the checkpoint an open store refuses, told from the segments and their bytes. */
  lemma AckRefusedExactly(st: Store, position: Position, io: AckIO)
    requires !st.mem.closed && st.mem.checkpoint.Before(position)
    ensures Acknowledge(st, position, io).1 == Err(InvalidPosition) <==>
              || st.mem.committed.Before(position)
              || !exists i :: 0 <= i < |st.mem.segments| && MayResumeAt(st, i, position, io)
  {
    hide RemoveDelivered;
    forall i | 0 <= i < |st.mem.segments| && MayResumeAt(st, i, position, io)
      ensures st.mem.segments[i].id == position.segment && Boundary(st.disk.files[position.segment].bytes, position.offset)
    {
    }
    if CheckpointAccepted(st, position, io.boundaryRead) {
      var i :| 0 <= i < |st.mem.segments| && st.mem.segments[i].id == position.segment
        && position.offset <= st.mem.segments[i].size && position.segment in st.disk.files
        && Boundary(st.disk.files[position.segment].bytes, position.offset);
      assert MayResumeAt(st, i, position, io);
    }
  }

  /** The position lies in the i-th segment, at its start or right after a newline that can be read. */
  predicate MayResumeAt(st: Store, i: nat, position: Position, io: AckIO) {
    && i < |st.mem.segments| && st.mem.segments[i].id == position.segment && position.segment in st.disk.files
    && position.offset <= st.mem.segments[i].size && position.offset <= |st.disk.files[position.segment].bytes|
    && (position.offset > 0 ==> io.boundaryRead && st.disk.files[position.segment].bytes[position.offset - 1] == NEWLINE)
  }

  lemma EndIsAccepted(st: Store, j: nat, p: Position)
    requires EndsIn(st, j, p) && p.UpTo(st.mem.committed)
    ensures CheckpointAccepted(st, p, true)
  {
  }

  lemma AfterSaveRest(st: Store, io: AckIO, p: Position)
    requires Readable(st) && st.mem.segments != [] && st.mem.checkpoint == p && io.removals >= |st.mem.segments|
    ensures var (st1, r) := AfterSave(st, io);
            && r.Ok? && st1.mem.checkpoint == p && st1.disk.saved == st.disk.saved
            && Readable(st1) && Pending(st1, p) == Pending(st, p)
  {
    hide Readable, Pending;
    RemovePending(st, io.removals, p);
    hide Delivered;
  }

  /**
   The end of any pending record can be acknowledged: with working storage the checkpoint
   and the saved position move there, and what is pending is exactly the rest.
   */
  lemma AckMovesOn(st: Store, k: nat, io: AckIO)
    requires Readable(st) && !st.mem.closed && k < |Pending(st, st.mem.checkpoint)| && AckWorks(st, io)
    ensures var p := Pending(st, st.mem.checkpoint)[k].end;
            var (st1, r) := Acknowledge(st, p, io);
            && r.Ok? && st1.mem.checkpoint == p && st1.disk.saved == Saved(p)
            && Readable(st1) && Pending(st1, p) == Pending(st, st.mem.checkpoint)[k + 1..]
  {
    hide Readable, Pending, AfterSave, CheckpointAccepted, Boundary;
    var p := Pending(st, st.mem.checkpoint)[k].end;
    var j := PendingEnds(st, st.mem.checkpoint, k);
    EndIsAccepted(st, j, p);
    PendingSplit(st, st.mem.checkpoint, k);
    var saved := Store(st.mem.(checkpoint := p), SaveCheckpoint(st.disk, p));
    SavedSame(st, saved, p);
    AfterSaveRest(saved, io, p);
  }

  lemma SavedSame(st: Store, saved: Store, from: Position)
    requires Readable(st) && saved.mem == st.mem.(checkpoint := saved.mem.checkpoint) && saved.disk.files == st.disk.files
    ensures Readable(saved) && Pending(saved, from) == Pending(st, from)
  {
    var i := IndexOf(st.mem.segments, from.segment);
    SavedSameFrom(st, saved, i, StartIn(st, i, from));
  }

  lemma {:induction false} SavedSameFrom(st: Store, saved: Store, i: nat, offset: nat)
    requires Readable(st) && Readable(saved) && i <= |st.mem.segments|
    requires saved.mem == st.mem.(checkpoint := saved.mem.checkpoint) && saved.disk.files == st.disk.files
    ensures PendingFrom(saved, i, offset) == PendingFrom(st, i, offset)
    decreases |st.mem.segments| - i
  {
    if i < |st.mem.segments| {
      SavedSameFrom(st, saved, i + 1, 0);
    }
  }

  /** In every reachable state the forwarder can confirm any part of what it has read, and goes on with the rest. */
  lemma AckDelivers(s: System, k: nat, io: AckIO)
    requires Inv(s) && s.proc.Some? && !s.proc.value.closed && Readable(R.StoreOf(s))
    requires k < |Pending(R.StoreOf(s), s.proc.value.checkpoint)| && AckWorks(R.StoreOf(s), io)
    ensures var pending := Pending(R.StoreOf(s), s.proc.value.checkpoint);
            var s1 := Apply(s, Ack(pending[k].end, io));
            && s1.proc.Some? && s1.proc.value.checkpoint == pending[k].end && s1.disk.saved == Saved(pending[k].end)
            && Readable(R.StoreOf(s1)) && Pending(R.StoreOf(s1), pending[k].end) == pending[k + 1..]
  {
    hide Readable, Pending, Acknowledge, Inv;
    AckMovesOn(R.StoreOf(s), k, io);
  }

  // A process that is killed resumes where it stood.

  /** The checkpoint lies in a listed segment, or before all of them. */
  ghost predicate Homed(m: Memory) {
    && m.segments != [] && SegmentsAscend(m.segments)
    && (m.checkpoint.segment < m.segments[0].id
        || exists i :: 0 <= i < |m.segments| && m.segments[i].id == m.checkpoint.segment)
  }

  lemma RemoveHomed(st: Store, removals: nat)
    requires Homed(st.mem)
    ensures Homed(RemoveDelivered(st, removals).0.mem)
  {
    hide Sum, Delivered;
    var s, s1 := st.mem.segments, RemoveDelivered(st, removals).0.mem.segments;
    var n := |s| - |s1|;
    assert s1 == s[n..];
    if i :| 0 <= i < |s| && s[i].id == st.mem.checkpoint.segment {
      if i >= n {
        assert s1[i - n].id == st.mem.checkpoint.segment;
      } else {
        assert s[i].id < s[n].id;
      }
    }
  }

  /** More segments behind leave the checkpoint where it is. */
  lemma GrownHomed(m: Memory, m1: Memory)
    requires Homed(m) && m1.checkpoint == m.checkpoint
    requires m1.segments == m.segments || m1.segments == m.segments + [Segment(Last(m).id + 1, 0)]
    ensures Homed(m1)
  {
    assert m1.segments[0] == m.segments[0];
    if i :| 0 <= i < |m.segments| && m.segments[i].id == m.checkpoint.segment {
      assert m1.segments[i] == m.segments[i];
    }
  }

  lemma RotateHomed(st: Store, io: RotateIO)
    requires Homed(st.mem)
    ensures Homed(Rotate(st, io).0.mem)
  {
    HasSegments(st);
    hide Homed;
    GrownHomed(st.mem, Rotate(st, io).0.mem);
  }

  lemma WriteHomed(st: Store, line: Bytes, writes: bool)
    requires Homed(st.mem)
    ensures Homed(WriteLine(st, line, writes).0.mem)
  {
    var m, m1 := st.mem, WriteLine(st, line, writes).0.mem;
    assert forall i :: 0 <= i < |m.segments| ==> m1.segments[i].id == m.segments[i].id;
  }

  lemma ReclaimHomed(st: Store, io: AppendIO)
    requires Homed(st.mem) && st.mem.segments != []
    ensures Homed(Reclaim(st, io).0.mem)
  {
    hide RemoveDelivered, Rotate, Homed;
    RotateHomed(st, io.reclaim);
    RemoveHomed(st, io.removals);
    RemoveHomed(Rotate(st, io.reclaim).0, io.removals);
  }

  lemma CapacityHomed(st: Store, size: nat, io: AppendIO)
    requires Homed(st.mem) && st.mem.segments != []
    ensures Homed(EnsureCapacity(st, size, io).0.mem)
  {
    hide Reclaim, Homed;
    ReclaimHomed(st, io);
    var st1 := if size <= st.mem.maxBytes && size > st.mem.maxBytes - st.mem.total then Reclaim(st, io).0 else st;
    SameHomed(st1.mem, st1.mem.(full := true));
    SameHomed(st1.mem, st1.mem.(full := false));
  }

  lemma AppendHomed(st: Store, line: Bytes, io: AppendIO)
    requires Homed(st.mem)
    ensures Homed(AppendLocked(st, line, io).0.mem)
  {
    hide EnsureCapacity, Rotate, WriteLine, Homed;
    HasSegments(st);
    CapacityHomed(st, |line|, io);
    var st1 := EnsureCapacity(st, |line|, io).0;
    RotateHomed(st1, io.rotate);
    HasSegments(Rotate(st1, io.rotate).0);
    WriteHomed(st1, line, io.writes);
    WriteHomed(Rotate(st1, io.rotate).0, line, io.writes);
  }

  lemma HasSegments(st: Store)
    requires Homed(st.mem)
    ensures st.mem.segments != []
  {
  }

  lemma AckHomed(st: Store, position: Position, io: AckIO)
    requires Homed(st.mem)
    ensures Homed(Acknowledge(st, position, io).0.mem)
  {
    hide RemoveDelivered;
    RemoveHomed(st, io.removals);
    if CheckpointAccepted(st, position, io.boundaryRead) {
      RemoveHomed(Store(st.mem.(checkpoint := position), SaveCheckpoint(st.disk, position)), io.removals);
    }
  }

  lemma ScannedAscends(d: Disk, maxBytes: nat)
    ensures SegmentsAscend(Scanned(d, maxBytes).mem.segments)
  {
    hide Adopted;
  }

  lemma OpenHomed(d: Disk, maxBytes: nat, io: OpenIO)
    ensures Homed(Open(d, maxBytes, io).mem)
  {
    hide Scanned, RemoveDelivered;
    var st := Scanned(d, maxBytes);
    ScannedAscends(d, maxBytes);
    var p := LoadCheckpoint(st, io.boundaryRead);
    assert p == Position(st.mem.segments[0].id, 0) || CheckpointAccepted(st, p, io.boundaryRead);
    RemoveHomed(st.(mem := st.mem.(checkpoint := p)), io.removals);
  }

  lemma StepHomed(s: System, step: Step)
    requires Enabled(s, step) && (s.proc.Some? ==> Homed(s.proc.value))
    ensures Apply(s, step).proc.Some? ==> Homed(Apply(s, step).proc.value)
  {
    hide AppendLocked, Acknowledge, Open, Homed, MayRemain;
    match step
    case OpenSpool(maxBytes, io) => OpenHomed(s.disk, maxBytes, io);
    case Append(record, io) => AppendHomed(R.StoreOf(s), record + [NEWLINE], io);
    case Ack(position, io) => AckHomed(R.StoreOf(s), position, io);
    case EndSync(ok) => SameHomed(s.proc.value, Apply(s, step).proc.value);
    case Close(syncs) => SameHomed(s.proc.value, Apply(s, step).proc.value);
    case _ =>
  }

  lemma SameHomed(m: Memory, m1: Memory)
    requires Homed(m) && m1.segments == m.segments && m1.checkpoint == m.checkpoint
    ensures Homed(m1)
  {
  }

  lemma {:induction false} RunHomed(s: System, steps: seq<Step>)
    requires R.Runs(s, steps) && (s.proc.Some? ==> Homed(s.proc.value))
    ensures R.Exec(s, steps).proc.Some? ==> Homed(R.Exec(s, steps).proc.value)
    decreases |steps|
  {
    hide Homed, Apply, Enabled;
    if steps != [] {
      StepHomed(s, steps[0]);
      RunHomed(Apply(s, steps[0]), steps[1..]);
    }
  }

  predicate Increasing(ids: seq<nat>) {
    forall i, j :: 0 <= i < j < |ids| ==> ids[i] < ids[j]
  }

  lemma SomeIn(b: seq<nat>)
    ensures b != [] ==> exists x :: x in b
  {
    if b != [] {
      assert b[0] in b;
    }
  }

  lemma {:induction false} SameOrder(a: seq<nat>, b: seq<nat>)
    requires Increasing(a) && Increasing(b) && forall x :: x in a <==> x in b
    ensures a == b
    decreases |a|
  {
    if a == [] {
      SomeIn(b);
    } else {
      var k := |a| - 1;
      assert a[k] in b;
      var l := |b| - 1;
      assert b[l] in a;
      assert a[k] == b[l];
      forall x ensures x in a[..k] <==> x in b[..l] {
        if x in a[..k] { assert x in b && x != b[l]; }
        if x in b[..l] { assert x in a && x != a[k]; }
      }
      SameOrder(a[..k], b[..l]);
      assert a == a[..k] + [a[k]] && b == b[..l] + [b[l]];
    }
  }

  function IdsOf(segments: seq<Segment>): (ids: seq<nat>)
    ensures |ids| == |segments| && forall i :: 0 <= i < |ids| ==> ids[i] == segments[i].id
  {
    seq(|segments|, i requires 0 <= i < |segments| => segments[i].id)
  }

  /** The segments an open will list: those of the process, and the empty file a failed rotation left. */
  function Found(d: Disk, segments: seq<Segment>, newest: nat): seq<Segment> {
    segments + if newest + 1 in d.files then [Segment(newest + 1, 0)] else []
  }

  /** The directory of a running process, taken as it is. */
  ghost predicate Lists(d: Disk, segments: seq<Segment>) {
    && segments != [] && SegmentsAscend(segments)
    && (forall i :: 0 <= i < |segments| ==>
          && Listing(d, segments[i].id) && |d.files[segments[i].id].bytes| == segments[i].size
          && Boundary(d.files[segments[i].id].bytes, segments[i].size))
    && (forall id: nat :: Listing(d, id) ==> exists i :: 0 <= i < |segments| && segments[i].id == id)
  }

  lemma ProcessLists(st: Store, log: History, sync: Option<Capture>)
    requires Good(TrustStore(st, log.adopted), log, sync)
    ensures Lists(st.disk, Found(st.disk, st.mem.segments, log.newest))
  {
    var d, t, s := st.disk, Trust(st.disk, log.adopted), st.mem.segments;
    var found := Found(d, s, log.newest);
    forall i | 0 <= i < |found|
      ensures Listing(d, found[i].id) && |d.files[found[i].id].bytes| == found[i].size
      ensures Boundary(d.files[found[i].id].bytes, found[i].size)
    {
      if i < |s| {
        assert Mirrors(t, s[i]);
      } else {
        assert t.files[log.newest + 1] == File([], 0, true, false);
      }
    }
    forall id: nat | Listing(d, id) ensures exists i :: 0 <= i < |found| && found[i].id == id {
      if id <= log.newest {
        assert Listing(t, id);
        var i :| 0 <= i < |s| && s[i].id == id;
        assert found[i].id == id;
      } else {
        assert id in t.files && id == log.newest + 1;
        assert found[|s|].id == id;
      }
    }
  }

  lemma ScanFinds(d: Disk, segments: seq<Segment>, maxBytes: nat)
    requires Lists(d, segments)
    ensures Scanned(d, maxBytes).disk == d && Scanned(d, maxBytes).mem.segments == segments
  {
    var ids, sorted := IdsOf(segments), Sorted(Linked(d));
    forall x ensures x in ids <==> x in sorted {
      if x in sorted {
        assert Listing(d, x);
        var i :| 0 <= i < |segments| && segments[i].id == x;
        assert ids[i] == x;
      }
    }
    SameOrder(ids, sorted);
    var last := segments[|segments| - 1];
    assert ids[|ids| - 1] == last.id;
    LastBoundaryIsGreatest(d.files[last.id].bytes, last.size);
    hide Sorted, LastBoundary;
    assert Adopted(d) == d;
  }

  /** Where a process opens that finds the position saved by the one before. */
  function ResumeAt(segments: seq<Segment>, p: Position): Position
    requires segments != []
  {
    if p.segment < segments[0].id then Position(segments[0].id, 0) else p
  }

  lemma LoadsSaved(st: Store, p: Position)
    requires st.mem.segments != [] && SegmentsAscend(st.mem.segments) && st.disk.saved == Saved(p)
    requires p.UpTo(st.mem.committed) && p.segment in st.disk.files && Boundary(st.disk.files[p.segment].bytes, p.offset)
    requires p.segment < st.mem.segments[0].id
             || exists i :: 0 <= i < |st.mem.segments| && st.mem.segments[i].id == p.segment && p.offset <= st.mem.segments[i].size
    ensures LoadCheckpoint(st, true) == ResumeAt(st.mem.segments, p)
  {
  }

  lemma ResumeSame(st: Store, p: Position)
    requires Readable(st) && st.mem.segments != []
    ensures Pending(st, ResumeAt(st.mem.segments, p)) == Pending(st, p)
  {
    hide Readable, Pending;
    if p.segment < st.mem.segments[0].id {
      SkipDeleted(st, p, 0);
    }
  }

  /** What the trusted view says of the checkpoint is true of the real directory. */
  lemma CheckpointThere(st: Store, log: History, sync: Option<Capture>)
    requires Good(TrustStore(st, log.adopted), log, sync) && Homed(st.mem)
    ensures var p := st.mem.checkpoint;
            && p.segment in st.disk.files && Boundary(st.disk.files[p.segment].bytes, p.offset)
            && p.UpTo(st.mem.committed) && st.mem.committed.UpTo(Last(st.mem).End()) && Last(st.mem).id == log.newest
            && (p.segment < st.mem.segments[0].id
                || exists i :: 0 <= i < |st.mem.segments| && st.mem.segments[i].id == p.segment && p.offset <= st.mem.segments[i].size)
  {
    var t := Trust(st.disk, log.adopted);
    assert Mirrors(t, Last(st.mem));
    if i :| 0 <= i < |st.mem.segments| && st.mem.segments[i].id == st.mem.checkpoint.segment {
      assert Mirrors(t, st.mem.segments[i]);
    }
  }

  /** The store as the next open finds it, before it deletes anything. */
  function Reopened(st: Store, maxBytes: nat): Store
    requires st.mem.segments != []
  {
    var st0 := Scanned(st.disk, maxBytes);
    st0.(mem := st0.mem.(checkpoint := ResumeAt(st.mem.segments, st.mem.checkpoint)))
  }

  /** An open of a directory whose saved position is sound, told from the directory alone. */
  lemma OpenScans(st: Store, found: seq<Segment>, maxBytes: nat, io: OpenIO)
    requires Lists(st.disk, found) && st.mem.segments != [] && st.mem.segments <= found
    requires var p := st.mem.checkpoint;
             && st.disk.saved == Saved(p) && io.boundaryRead && p.UpTo(found[|found| - 1].End())
             && p.segment in st.disk.files && Boundary(st.disk.files[p.segment].bytes, p.offset)
             && (p.segment < st.mem.segments[0].id
                 || exists i :: 0 <= i < |st.mem.segments| && st.mem.segments[i].id == p.segment && p.offset <= st.mem.segments[i].size)
    ensures var st0 := Reopened(st, maxBytes);
            && st0.mem.segments == found && st0.disk == st.disk
            && st0.mem.committed == found[|found| - 1].End()
            && st0.mem.checkpoint == ResumeAt(st.mem.segments, st.mem.checkpoint)
            && Open(st.disk, maxBytes, io) == RemoveDelivered(st0, io.removals).0
  {
    hide RemoveDelivered, LoadCheckpoint, Boundary;
    var p := st.mem.checkpoint;
    ScanFinds(st.disk, found, maxBytes);
    var st0 := Scanned(st.disk, maxBytes);
    assert st0.mem.committed == found[|found| - 1].End();
    assert SegmentsAscend(found);
    hide Scanned, Lists;
    assert found[0] == st.mem.segments[0];
    if i :| 0 <= i < |st.mem.segments| && st.mem.segments[i].id == p.segment && p.offset <= st.mem.segments[i].size {
      assert found[i] == st.mem.segments[i];
    }
    LoadsSaved(st0, p);
  }

  lemma FoundEnds(d: Disk, segments: seq<Segment>, newest: nat, p: Position)
    requires segments != [] && segments[|segments| - 1].id == newest && p.UpTo(segments[|segments| - 1].End())
    ensures var found := Found(d, segments, newest); segments <= found && p.UpTo(found[|found| - 1].End())
  {
  }

  lemma OpenFinds(st: Store, log: History, sync: Option<Capture>, maxBytes: nat, io: OpenIO)
    requires Good(TrustStore(st, log.adopted), log, sync) && Homed(st.mem)
    requires st.disk.saved == Saved(st.mem.checkpoint) && io.boundaryRead
    ensures var st0 := Reopened(st, maxBytes);
            && st0.mem.segments == Found(st.disk, st.mem.segments, log.newest) && st0.disk == st.disk
            && st0.mem.committed == st0.mem.segments[|st0.mem.segments| - 1].End()
            && st0.mem.checkpoint == ResumeAt(st.mem.segments, st.mem.checkpoint)
            && Open(st.disk, maxBytes, io) == RemoveDelivered(st0, io.removals).0
  {
    hide Good, Homed, RemoveDelivered, Open, Reopened, Boundary, Lists, Found;
    HasSegments(st);
    CheckpointThere(st, log, sync);
    ProcessLists(st, log, sync);
    FoundEnds(st.disk, st.mem.segments, log.newest, st.mem.checkpoint);
    OpenScans(st, Found(st.disk, st.mem.segments, log.newest), maxBytes, io);
  }

  lemma ReopenFollows(st: Store, st0: Store, newest: nat)
    requires SpoolReaders.Listed(st) && Last(st.mem).id == newest
    requires st0.disk == st.disk && st0.mem.segments == Found(st.disk, st.mem.segments, newest)
    requires st.mem.committed.UpTo(st0.mem.committed) && st.mem.checkpoint.UpTo(st0.mem.checkpoint)
    ensures Follows(st, st0, 0)
  {
    var s, s1 := st.mem.segments, st0.mem.segments;
    assert s[0..|s| - 1] <= s1;
  }

  lemma ResumesLater(st: Store, st0: Store, newest: nat)
    requires st.mem.segments != [] && Last(st.mem).id == newest && st.mem.committed.UpTo(Last(st.mem).End())
    requires st0.mem.segments == Found(st.disk, st.mem.segments, newest)
    requires st0.mem.committed == st0.mem.segments[|st0.mem.segments| - 1].End()
    ensures st.mem.committed.UpTo(st0.mem.committed)
    ensures st.mem.checkpoint.UpTo(ResumeAt(st.mem.segments, st.mem.checkpoint))
  {
  }

  lemma FoundReadable(st0: Store)
    requires Lists(st0.disk, st0.mem.segments) && st0.mem.committed == st0.mem.segments[|st0.mem.segments| - 1].End()
    ensures Readable(st0)
  {
  }

  lemma RemoveKeepsCheckpoint(st: Store, removals: nat)
    ensures RemoveDelivered(st, removals).0.mem.checkpoint == st.mem.checkpoint
  {
  }

  lemma OpenResumes(st: Store, log: History, sync: Option<Capture>, maxBytes: nat, io: OpenIO)
    requires Good(TrustStore(st, log.adopted), log, sync) && Homed(st.mem)
    requires Readable(st) && WholeLimits(st) && SpoolReaders.Listed(st)
    requires st.disk.saved == Saved(st.mem.checkpoint) && io.boundaryRead
    ensures var st1, from := Open(st.disk, maxBytes, io), ResumeAt(st.mem.segments, st.mem.checkpoint);
            st1.mem.checkpoint == from && Readable(st1) && Pending(st, st.mem.checkpoint) <= Pending(st1, from)
  {
    hide Good, Readable, WholeLimits, Pending, Open, RemoveDelivered, Reopened, Boundary, Homed, SpoolReaders.Listed, Lists;
    HasSegments(st);
    var from := ResumeAt(st.mem.segments, st.mem.checkpoint);
    CheckpointThere(st, log, sync);
    OpenFinds(st, log, sync, maxBytes, io);
    ProcessLists(st, log, sync);
    var st0 := Reopened(st, maxBytes);
    ResumesLater(st, st0, log.newest);
    RemoveKeepsCheckpoint(st0, io.removals);
    ReopenFollows(st, st0, log.newest);
    FoundReadable(st0);
    PendingGrows(st, st0, 0, from);
    ResumeSame(st, st.mem.checkpoint);
    RemovePending(st0, io.removals, from);
  }

  /** The second process stands where the first did, or at the oldest segment if that one is deleted, and has all the first had to read. */
  ghost predicate Resumes(s: System, s1: System) {
    && s.proc.Some? && s1.proc.Some? && s.proc.value.segments != []
    && var st, st1 := R.StoreOf(s), R.StoreOf(s1);
       && st1.mem.checkpoint == ResumeAt(st.mem.segments, st.mem.checkpoint)
       && Readable(st) && Readable(st1) && Pending(st, st.mem.checkpoint) <= Pending(st1, st1.mem.checkpoint)
  }

  /** The process is killed and the spool opened again. */
  function Restarted(s: System, maxBytes: nat, io: OpenIO): System
    requires s.proc.Some? && maxBytes > 0
  {
    Apply(Apply(s, Kill), OpenSpool(maxBytes, io))
  }

  /**
   A process killed with its checkpoint saved is followed by one that resumes there: what
   was pending is pending again, from its first record on, and nothing before it.
   */
  lemma KillResumes(s: System, maxBytes: nat, io: OpenIO)
    requires Inv(s) && s.proc.Some? && Homed(s.proc.value) && s.disk.saved == Saved(s.proc.value.checkpoint)
    requires maxBytes > 0 && io.boundaryRead
    ensures Resumes(s, Restarted(s, maxBytes, io))
  {
    hide Inv, Good, Readable, WholeLimits, Pending, Open, Homed, SpoolReaders.Listed, ResumeAt;
    var st := R.StoreOf(s);
    R.Departs(s);
    InvLists(s);
    HasSegments(st);
    OpenResumes(st, s.log, s.sync, maxBytes, io);
  }

  /** So it is after every history with allowed power cuts. */
  lemma RunResumes(steps: seq<Step>, maxBytes: nat, io: OpenIO)
    requires R.Runs(EMPTY, steps) && R.CutsAllowed(EMPTY, steps) && maxBytes > 0 && io.boundaryRead
    requires var s := R.Exec(EMPTY, steps); s.proc.Some? && s.disk.saved == Saved(s.proc.value.checkpoint)
    ensures Resumes(R.Exec(EMPTY, steps), Restarted(R.Exec(EMPTY, steps), maxBytes, io))
  {
    hide Inv, Homed, Resumes, Restarted, R.Runs, R.Exec, R.CutsAllowed;
    R.EmptyIsGood();
    R.RunKeeps(EMPTY, steps);
    RunHomed(EMPTY, steps);
    KillResumes(R.Exec(EMPTY, steps), maxBytes, io);
  }

  // An append ends as a record that can be read.

  /** A record written after the checkpoint and within the commit point is pending. */
  lemma WrittenIsPending(st: Store, log: History, sync: Option<Capture>, n: nat)
    requires Good(st, log, sync) && Readable(st) && n in log.records && log.records[n].segment == log.newest
    requires st.mem.checkpoint.UpTo(log.records[n].Start()) && log.records[n].End().UpTo(st.mem.committed)
    ensures SpoolRecord(log.records[n].data, log.records[n].End()) in Pending(st, st.mem.checkpoint)
  {
    hide Good, ProcInv, CheckpointInv, OnDisk, Readable, Pending, Intact, Contents;
    var l, j := log.records[n], |st.mem.segments| - 1;
    GoodHas(st, log, sync, n);
    R.RecordInContents(st, log, l, j);
    R.CheckpointStartsRecord(st, log, l, j);
    PendingContains(st, st.mem.checkpoint, j, l.start, l.data);
  }

  lemma GoodHas(st: Store, log: History, sync: Option<Capture>, n: nat)
    requires Good(st, log, sync) && n in log.records && log.records[n].segment == log.newest
    requires st.mem.checkpoint.UpTo(log.records[n].Start())
    ensures ProcInv(st, log) && CheckpointInv(st, log) && OnDisk(st.disk, log.records[n])
    ensures st.mem.segments != [] && Last(st.mem).id == log.newest
  {
    assert OnDisk(st.disk, log.records[n]);
  }

  /** Making room changes nothing of these fields, but may find everything synced. */
  predicate Settles(m: Memory, m1: Memory) {
    && m1.segments != [] && m1.closed == m.closed && m1.appended == m.appended && m1.checkpoint == m.checkpoint
    && (m1.synced == m.synced || m1.synced == m.appended)
  }

  lemma RemoveSettles(st: Store, removals: nat)
    requires st.mem.segments != []
    ensures Settles(st.mem, RemoveDelivered(st, removals).0.mem)
  {
    hide Sum, Delivered;
  }

  lemma RotateSettles(st: Store, io: RotateIO)
    requires st.mem.segments != []
    ensures Settles(st.mem, Rotate(st, io).0.mem) && (Rotate(st, io).1 ==> Rotate(st, io).0.mem.active)
  {
  }

  lemma CapacitySettles(st: Store, size: nat, io: AppendIO)
    requires st.mem.segments != []
    ensures Settles(st.mem, EnsureCapacity(st, size, io).0.mem)
  {
    hide RemoveDelivered, Rotate;
    RemoveSettles(st, io.removals);
    RotateSettles(st, io.reclaim);
    RemoveSettles(Rotate(st, io.reclaim).0, io.removals);
  }

  /** What a successful append leaves in memory. */
  lemma AppendLeaves(st: Store, line: Bytes, io: AppendIO)
    requires st.mem.segments != [] && AppendLocked(st, line, io).1.Ok?
    ensures var m, m1 := st.mem, AppendLocked(st, line, io).0.mem;
            && m1.segments != [] && m1.active && m1.appended == m.appended + 1 && m1.checkpoint == m.checkpoint
            && (m1.synced == m.synced || m1.synced == m.appended)
  {
    hide EnsureCapacity, Rotate;
    CapacitySettles(st, |line|, io);
    RotateSettles(EnsureCapacity(st, |line|, io).0, io.rotate);
  }

  lemma RemoveLeavesLast(st: Store, removals: nat)
    requires st.mem.segments != []
    ensures var m, m1 := st.mem, RemoveDelivered(st, removals).0.mem;
            m1.segments != [] && Last(m1) == Last(m) && m1.active == m.active && m1.segmentSize == m.segmentSize
  {
    hide Sum, Delivered;
  }

  lemma RotateStartsNext(st: Store, io: RotateIO)
    requires st.mem.segments != [] && Rotate(st, io).1
    ensures var m, m1 := st.mem, Rotate(st, io).0.mem;
            m1.segments != [] && Last(m1) == Segment(Last(m).id + 1, 0) && m1.active && m1.segmentSize == m.segmentSize
  {
  }

  /** Making room for a line starts a new segment exactly when the last one is delivered whole and the line does not fit. */
  lemma RoomLeavesLast(st: Store, size: nat, io: AppendIO)
    requires st.mem.segments != [] && EnsureCapacity(st, size, io).1.Ok?
    ensures var m, m1 := st.mem, EnsureCapacity(st, size, io).0.mem;
            && m1.segments != [] && m1.segmentSize == m.segmentSize
            && if size > m.maxBytes - m.total && Last(m).size > 0 && m.checkpoint == Last(m).End()
               then Last(m1) == Segment(Last(m).id + 1, 0) && m1.active
               else Last(m1) == Last(m) && m1.active == m.active
  {
    hide RemoveDelivered, Rotate;
    if Rotate(st, io.reclaim).1 {
      RotateStartsNext(st, io.reclaim);
      RemoveLeavesLast(Rotate(st, io.reclaim).0, io.removals);
    }
    RemoveLeavesLast(st, io.removals);
  }

  /**
   An accepted line starts the next segment exactly when the last one is not open, is not
   empty and would grow beyond the segment size, or is delivered whole and no room is
   left; else it goes to the end of the last one.
   */
  lemma AppendPlaces(st: Store, line: Bytes, io: AppendIO)
    requires st.mem.segments != [] && AppendLocked(st, line, io).1.Ok?
    ensures var m, last, m1 := st.mem, Last(st.mem), AppendLocked(st, line, io).0.mem;
            && m1.segments != []
            && Last(m1) ==
               if !m.active || (last.size > 0 && (|| last.size + |line| > m.segmentSize
                                                  || (|line| > m.maxBytes - m.total && m.checkpoint == last.End())))
               then Segment(last.id + 1, |line|)
               else Segment(last.id, last.size + |line|)
  {
    hide EnsureCapacity, Rotate;
    RoomLeavesLast(st, |line|, io);
    var st1 := EnsureCapacity(st, |line|, io).0;
    if Rotate(st1, io.rotate).1 {
      RotateStartsNext(st1, io.rotate);
    }
  }

  /** The sections of one append with an fsync that works and nothing in between. */
  ghost function Appending(s: System, record: Bytes, io: AppendIO): seq<Step>
    requires s.proc.Some?
  {
    var g := s.proc.value.appended + 1;
    [Append(record, io), BeginSync(g), EndSync(true), Accept(g)]
  }

  lemma OneStep(s: System, step: Step, rest: seq<Step>)
    requires Enabled(s, step) && R.Runs(Apply(s, step), rest)
    ensures R.Runs(s, [step] + rest) && R.Exec(s, [step] + rest) == R.Exec(Apply(s, step), rest)
  {
    hide Enabled, Apply;
    assert ([step] + rest)[1..] == rest;
  }

  lemma SyncLeaves(s: System, g: nat)
    requires s.proc.Some? && s.sync.None? && s.proc.value.segments != [] && s.proc.value.active
    requires s.proc.value.synced < g == s.proc.value.appended
    ensures var s2 := Apply(s, BeginSync(g));
            var s3 := Apply(s2, EndSync(true));
            && Enabled(s, BeginSync(g)) && Enabled(s2, EndSync(true)) && Enabled(s3, Accept(g))
            && s3.log == s.log && s3.proc.value.synced == g && s3.proc.value.checkpoint == s.proc.value.checkpoint
            && Last(s.proc.value).End().UpTo(s3.proc.value.committed) && s3.proc.value.segments == s.proc.value.segments
  {
  }

  /** The record as the append logs it: the last thing in the last segment, after everything committed. */
  lemma AppendLogs(s: System, record: Bytes, io: AppendIO)
    requires Inv(s) && s.proc.Some? && Enabled(s, Append(record, io))
    requires AppendLocked(R.StoreOf(s), record + [NEWLINE], io).1.Ok?
    ensures var s1, n := Apply(s, Append(record, io)), s.log.next;
            && s1.proc.Some? && s1.sync == s.sync && s1.proc.value.segments != [] && s1.proc.value.active
            && s1.proc.value.synced <= s.proc.value.appended && s1.proc.value.appended == s.proc.value.appended + 1
            && n == s1.log.base + s1.proc.value.appended && n in s1.log.records
            && s1.log.records[n].data == record && s1.log.records[n].End() == Last(s1.proc.value).End()
            && s1.proc.value.checkpoint.UpTo(s1.log.records[n].Start())
  {
    var st, line := R.StoreOf(s), record + [NEWLINE];
    R.Departs(s);
    CheckpointCommitted(st, s.log, s.sync);
    P.CommittedBelowEnd(s);
    P.AppendsAfter(st, line, io, st.mem.committed);
    AppendLeaves(st, line, io);
    hide Inv, Good, AppendLocked;
  }

  lemma CheckpointCommitted(st: Store, log: History, sync: Option<Capture>)
    requires Good(TrustStore(st, log.adopted), log, sync)
    ensures st.mem.checkpoint.UpTo(st.mem.committed) && log.next == log.base + st.mem.appended + 1
  {
  }

  lemma AppendRuns(s: System, record: Bytes, io: AppendIO)
    requires Inv(s) && s.proc.Some? && s.sync.None? && Enabled(s, Append(record, io))
    requires AppendLocked(R.StoreOf(s), record + [NEWLINE], io).1.Ok?
    ensures R.Runs(s, Appending(s, record, io))
    ensures var s1, s4, n := Apply(s, Append(record, io)), R.Exec(s, Appending(s, record, io)), s.log.next;
            && Inv(s4) && s4.proc.Some? && s4.log == Accepted(s1.log, n)
            && s4.proc.value.checkpoint == s1.proc.value.checkpoint
            && Last(s1.proc.value).End().UpTo(s4.proc.value.committed)
            && s4.proc.value.segments == s1.proc.value.segments
  {
    hide Inv, AppendLocked;
    var g := s.proc.value.appended + 1;
    AppendLogs(s, record, io);
    var s1 := Apply(s, Append(record, io));
    R.StepKeeps(s, Append(record, io));
    SyncLeaves(s1, g);
    var s2 := Apply(s1, BeginSync(g));
    R.StepKeeps(s1, BeginSync(g));
    var s3 := Apply(s2, EndSync(true));
    R.StepKeeps(s2, EndSync(true));
    R.StepKeeps(s3, Accept(g));
    var s4 := Apply(s3, Accept(g));
    assert s4.log == Accepted(s1.log, s.log.next) && s4.proc == s3.proc;
    hide Apply, Enabled;
    assert R.Runs(s4, []) && R.Exec(s4, []) == s4;
    OneStep(s3, Accept(g), []);
    OneStep(s2, EndSync(true), [Accept(g)] + []);
    OneStep(s1, BeginSync(g), [EndSync(true)] + ([Accept(g)] + []));
    OneStep(s, Append(record, io), [BeginSync(g)] + ([EndSync(true)] + ([Accept(g)] + [])));
    assert Appending(s, record, io) == [Append(record, io)] + ([BeginSync(g)] + ([EndSync(true)] + ([Accept(g)] + [])));
  }

  /**
   An append that finds room and whose fsync works is accepted, and its record is among
   those that can be read from the checkpoint.
   */
  lemma AppendIsRead(s: System, record: Bytes, io: AppendIO)
    requires Inv(s) && s.proc.Some? && s.sync.None? && Enabled(s, Append(record, io))
    requires AppendLocked(R.StoreOf(s), record + [NEWLINE], io).1.Ok?
    ensures R.Runs(s, Appending(s, record, io))
    ensures var s4, n := R.Exec(s, Appending(s, record, io)), s.log.next;
            && s4.proc.Some? && n in s4.log.accepted && s4.log.accepted[n].data == record && Readable(R.StoreOf(s4))
            && SpoolRecord(record, s4.log.accepted[n].End()) in Pending(R.StoreOf(s4), s4.proc.value.checkpoint)
  {
    hide Inv, AppendLocked, Good, Readable, Pending, WholeLimits, R.Runs, R.Exec, Apply, Enabled;
    AppendRuns(s, record, io);
    AppendLogs(s, record, io);
    var s4 := R.Exec(s, Appending(s, record, io));
    R.Departs(s4);
    R.InvIsReadable(s4);
    NewestIsLast(TrustStore(R.StoreOf(s4), s4.log.adopted), s4.log, s4.sync);
    WrittenIsPending(TrustStore(R.StoreOf(s4), s4.log.adopted), s4.log, s4.sync, s.log.next);
  }

  lemma NewestIsLast(st: Store, log: History, sync: Option<Capture>)
    requires Good(st, log, sync)
    ensures st.mem.segments != [] && Last(st.mem).id == log.newest
  {
  }
}
