/**
 Reading while the spool goes on: the reader takes the mutex only to ask how far it may
 read next, and appends, fsyncs, rotations and deletions come in between.
 */
module SpoolReaders {
  import opened Framing
  import opened SpoolModel
  import opened SpoolReading
  import opened SpoolSafety
  import R = SpoolRuns

  // How a store moves on.

  predicate Listed(st: Store) {
    && st.mem.segments != []
    && (forall i :: 0 <= i < |st.mem.segments| ==>
          st.mem.segments[i].id in st.disk.files && st.mem.segments[i].size <= |st.disk.files[st.mem.segments[i].id].bytes|)
    && (forall i, j :: 0 <= i < j < |st.mem.segments| ==> st.mem.segments[i].id < st.mem.segments[j].id)
  }

  /** The segments of `s` from the k-th on are still listed, only the last of them grown. */
  predicate Keeps(s: seq<Segment>, s1: seq<Segment>, k: nat) {
    k < |s| ==>
      && |s| - k <= |s1| && s[k..|s| - 1] <= s1
      && s1[|s| - 1 - k].id == s[|s| - 1].id && s[|s| - 1].size <= s1[|s| - 1 - k].size
  }

  predicate KeepsBytes(st: Store, st1: Store, k: nat) {
    var s := st.mem.segments;
    forall i :: k <= i < |s| ==>
      s[i].id in st.disk.files && s[i].id in st1.disk.files && st.disk.files[s[i].id].bytes <= st1.disk.files[s[i].id].bytes
  }

  predicate Gone(s: seq<Segment>, k: nat, checkpoint: Position) {
    k <= |s| && forall i :: 0 <= i < k ==> s[i].End().UpTo(checkpoint)
  }

  predicate AddsBehind(s: seq<Segment>, s1: seq<Segment>, k: nat) {
    s != [] && forall j :: 0 <= j < |s1| && j >= |s| - k ==> s[|s| - 1].id < s1[j].id
  }

  predicate Onward(m: Memory, m1: Memory) {
    m.committed.UpTo(m1.committed) && m.checkpoint.UpTo(m1.checkpoint)
  }

  /** `st1` is `st` after the first k segments, all delivered, are gone and more may have been written behind. */
  predicate Follows(st: Store, st1: Store, k: nat) {
    var s, s1 := st.mem.segments, st1.mem.segments;
    && Listed(st) && Listed(st1) && Keeps(s, s1, k) && KeepsBytes(st, st1, k)
    && Gone(s, k, st1.mem.checkpoint) && AddsBehind(s, s1, k) && Onward(st.mem, st1.mem)
  }

  lemma KeepsAt(s: seq<Segment>, s1: seq<Segment>, k: nat, i: nat)
    requires Keeps(s, s1, k) && k <= i < |s|
    ensures i - k < |s1| && s1[i - k].id == s[i].id && s[i].size <= s1[i - k].size
    ensures i < |s| - 1 ==> s1[i - k] == s[i]
  {
    if i < |s| - 1 {
      assert s[k..|s| - 1][i - k] == s[i];
    }
  }

  lemma KeepsTrans(a: seq<Segment>, b: seq<Segment>, c: seq<Segment>, k: nat, l: nat)
    requires Keeps(a, b, k) && Keeps(b, c, l)
    ensures Keeps(a, c, k + l)
  {
    var n := k + l;
    if n < |a| {
      KeepsAt(a, b, k, |a| - 1);
      KeepsAt(b, c, l, |a| - 1 - k);
      forall i | n <= i < |a| - 1 ensures c[i - n] == a[i] {
        KeepsAt(a, b, k, i);
        KeepsAt(b, c, l, i - k);
      }
    }
  }

  lemma BytesTrans(a: Store, b: Store, c: Store, k: nat, l: nat)
    requires KeepsBytes(a, b, k) && KeepsBytes(b, c, l) && Keeps(a.mem.segments, b.mem.segments, k)
    ensures KeepsBytes(a, c, k + l)
  {
    var s, t := a.mem.segments, b.mem.segments;
    forall i | k + l <= i < |s|
      ensures s[i].id in a.disk.files && s[i].id in c.disk.files
      ensures a.disk.files[s[i].id].bytes <= c.disk.files[s[i].id].bytes
    {
      KeepsAt(s, t, k, i);
      assert t[i - k].id == s[i].id;
    }
  }

  lemma GoneTrans(s: seq<Segment>, t: seq<Segment>, k: nat, l: nat, b: Position, c: Position) returns (n: nat)
    requires Gone(s, k, b) && Gone(t, l, c) && b.UpTo(c) && Keeps(s, t, k)
    ensures Gone(s, n, c) && n == if k + l <= |s| then k + l else |s|
  {
    n := if k + l <= |s| then k + l else |s|;
    forall i | 0 <= i < n ensures s[i].End().UpTo(c) {
      if i >= k {
        KeepsAt(s, t, k, i);
        assert t[i - k].End().UpTo(c);
      }
    }
  }

  lemma BehindTrans(s: seq<Segment>, t: seq<Segment>, u: seq<Segment>, k: nat, l: nat)
    requires Keeps(s, t, k) && Keeps(t, u, l) && k <= |s| && l <= |t|
    requires AddsBehind(s, t, k) && AddsBehind(t, u, l)
    requires forall i, j :: 0 <= i < j < |t| ==> t[i].id < t[j].id
    ensures AddsBehind(s, u, k + l)
  {
    forall j | 0 <= j < |u| && j >= |s| - (k + l) ensures s[|s| - 1].id < u[j].id {
      if k < |s| {
        KeepsAt(s, t, k, |s| - 1);
      }
      if j < |t| - l {
        KeepsAt(t, u, l, j + l);
        assert j + l >= |s| - k;
        assert s[|s| - 1].id < t[j + l].id;
      } else {
        assert t[|t| - 1].id < u[j].id;
        assert s[|s| - 1].id <= t[|t| - 1].id;
      }
    }
  }

  lemma FollowsTrans(a: Store, b: Store, c: Store, k: nat, l: nat) returns (n: nat)
    requires Follows(a, b, k) && Follows(b, c, l)
    ensures Follows(a, c, n) && (k == l == 0 ==> n == 0)
  {
    hide KeepsBytes, AddsBehind, Listed;
    var s, t, u := a.mem.segments, b.mem.segments, c.mem.segments;
    KeepsTrans(s, t, u, k, l);
    BytesTrans(a, b, c, k, l);
    n := GoneTrans(s, t, k, l, b.mem.checkpoint, c.mem.checkpoint);
    ListedAscends(b);
    BehindTrans(s, t, u, k, l);
    hide Gone;
    Capped(a, c, k + l, n);
  }

  lemma ListedAscends(st: Store)
    requires Listed(st)
    ensures forall i, j :: 0 <= i < j < |st.mem.segments| ==> st.mem.segments[i].id < st.mem.segments[j].id
  {
  }

  lemma Capped(a: Store, c: Store, k: nat, n: nat)
    requires n == if k <= |a.mem.segments| then k else |a.mem.segments|
    requires Keeps(a.mem.segments, c.mem.segments, k) && KeepsBytes(a, c, k) && AddsBehind(a.mem.segments, c.mem.segments, k)
    ensures Keeps(a.mem.segments, c.mem.segments, n) && KeepsBytes(a, c, n) && AddsBehind(a.mem.segments, c.mem.segments, n)
  {
  }

  lemma FollowsSelf(st: Store)
    requires Listed(st)
    ensures Follows(st, st, 0)
  {
  }

  // Every section moves the store on.

  lemma DropFollows(st: Store, st1: Store, n: nat)
    requires Listed(st) && n < |st.mem.segments| && st1.mem.segments == st.mem.segments[n..]
    requires Gone(st.mem.segments, n, st.mem.checkpoint)
    requires st1.mem.checkpoint == st.mem.checkpoint && st1.mem.committed == st.mem.committed
    requires forall id :: id in st.disk.files ==> id in st1.disk.files && st1.disk.files[id].bytes == st.disk.files[id].bytes
    ensures Follows(st, st1, n)
  {
    var s := st.mem.segments;
    assert s[n..][|s| - 1 - n] == s[|s| - 1] && s[n..|s| - 1] <= s[n..];
  }

  lemma RemoveFollows(st: Store, removals: nat) returns (n: nat)
    requires Listed(st)
    ensures Follows(st, RemoveDelivered(st, removals).0, n)
  {
    hide Sum, Listed, Follows, Ids;
    var all := Delivered(st.mem.segments, st.mem.checkpoint);
    n := if all <= removals then all else removals;
    DeliveredCounts(st.mem.segments, st.mem.checkpoint);
    ListedNonempty(st);
    hide Delivered;
    DropFollows(st, RemoveDelivered(st, removals).0, n);
  }

  lemma ListedNonempty(st: Store)
    requires Listed(st)
    ensures st.mem.segments != []
  {
  }

  /** The same list and the same bytes: only commit point, flags and fsyncs have moved. */
  lemma SameFollows(st: Store, st1: Store)
    requires Listed(st) && st1.mem.segments == st.mem.segments
    requires st1.mem.checkpoint == st.mem.checkpoint && st.mem.committed.UpTo(st1.mem.committed)
    requires forall id :: id in st.disk.files ==> id in st1.disk.files && st1.disk.files[id].bytes == st.disk.files[id].bytes
    ensures Follows(st, st1, 0)
  {
  }

  lemma CreateFollows(st: Store, io: CreateIO)
    requires Listed(st)
    ensures Follows(st, CreateSegment(st, Last(st.mem).id + 1, io).0, 0)
  {
    var s, st1 := st.mem.segments, CreateSegment(st, Last(st.mem).id + 1, io).0;
    assert s[0..|s| - 1] <= st1.mem.segments;
  }

  lemma StartFollows(st: Store, io: CreateIO)
    requires Listed(st)
    ensures Follows(st, StartNext(st, io).0, 0)
  {
    CreateFollows(st, io);
    var st1 := CreateSegment(st, Last(st.mem).id + 1, io).0;
    hide CreateSegment;
    hide Listed, Keeps, KeepsBytes, AddsBehind;
    LaterCommit(st, st1, StartNext(st, io).0);
  }

  lemma LaterCommit(st: Store, st1: Store, st2: Store)
    requires Follows(st, st1, 0) && st2 == st1.(mem := st1.mem.(committed := st2.mem.committed))
    requires st1.mem.committed.UpTo(st2.mem.committed)
    ensures Follows(st, st2, 0)
  {
  }

  lemma RotateFollows(st: Store, io: RotateIO)
    requires Listed(st)
    ensures Follows(st, Rotate(st, io).0, 0)
  {
    ListedNonempty(st);
    hide Listed, Follows, StartNext;
    var flushed := Store(st.mem.(active := false, synced := st.mem.appended), Flush(st.disk, Last(st.mem).id));
    FollowsSelf(st);
    StartFollows(st, io.create);
    SameFollows(st, st.(disk := flushed.disk));
    SameFollows(st, flushed);
    FollowsLists(st, flushed, 0);
    StartFollows(flushed, io.create);
    var n := FollowsTrans(st, flushed, StartNext(flushed, io.create).0, 0, 0);
  }

  lemma ReclaimFollows(st: Store, io: AppendIO) returns (n: nat)
    requires Listed(st)
    ensures Follows(st, Reclaim(st, io).0, n)
  {
    hide RemoveDelivered, Rotate, Follows;
    var last := Last(st.mem);
    if last.size > 0 && st.mem.checkpoint == last.End() {
      n := 0;
      RotateFollows(st, io.reclaim);
      var (st1, ok) := Rotate(st, io.reclaim);
      if ok {
        FollowsLists(st, st1, 0);
        n := RemoveFollows(st1, io.removals);
        n := FollowsTrans(st, st1, RemoveDelivered(st1, io.removals).0, 0, n);
      }
    } else {
      n := RemoveFollows(st, io.removals);
    }
  }

  lemma FollowsLists(st: Store, st1: Store, k: nat)
    requires Follows(st, st1, k)
    ensures Listed(st1)
  {
  }

  lemma WriteFollows(st: Store, line: Bytes, writes: bool)
    requires Listed(st)
    ensures Follows(st, WriteLine(st, line, writes).0, 0)
  {
  }

  lemma CapacityFollows(st: Store, size: nat, io: AppendIO) returns (n: nat)
    requires Listed(st)
    ensures Follows(st, EnsureCapacity(st, size, io).0, n)
  {
    hide Reclaim;
    FollowsSelf(st);
    n := 0;
    if size <= st.mem.maxBytes && size > st.mem.maxBytes - st.mem.total {
      n := ReclaimFollows(st, io);
    }
  }

  lemma AppendFollows(st: Store, line: Bytes, io: AppendIO) returns (n: nat)
    requires Listed(st)
    ensures Follows(st, AppendLocked(st, line, io).0, n)
  {
    hide EnsureCapacity, Rotate, WriteLine, Follows;
    FollowsSelf(st);
    n := 0;
    if !st.mem.closed {
      var (st1, room) := EnsureCapacity(st, |line|, io);
      n := CapacityFollows(st, |line|, io);
      FollowsLists(st, st1, n);
      if room.Ok? {
        if NeedsRotation(st1.mem, |line|) {
          var (st2, rotated) := Rotate(st1, io.rotate);
          RotateFollows(st1, io.rotate);
          n := FollowsTrans(st, st1, st2, n, 0);
          if rotated {
            FollowsLists(st1, st2, 0);
            WriteFollows(st2, line, io.writes);
            n := FollowsTrans(st, st2, WriteLine(st2, line, io.writes).0, n, 0);
          }
        } else {
          WriteFollows(st1, line, io.writes);
          n := FollowsTrans(st, st1, WriteLine(st1, line, io.writes).0, n, 0);
        }
      }
    }
  }

  lemma SyncFollows(st: Store, c: Capture, ok: bool)
    requires Listed(st)
    ensures Follows(st, FinishSync(st, c, ok), 0)
  {
    hide Listed, Follows;
    SameFollows(st, FinishSync(st, c, ok));
  }

  lemma AckFollows(st: Store, position: Position, io: AckIO) returns (n: nat)
    requires Listed(st)
    ensures Follows(st, Acknowledge(st, position, io).0, n)
  {
    hide RemoveDelivered, CheckpointAccepted, Listed, Follows;
    FollowsSelf(st);
    n := 0;
    var saved := Store(st.mem.(checkpoint := position), SaveCheckpoint(st.disk, position));
    if !st.mem.closed {
      if position == st.mem.checkpoint {
        n := RemoveFollows(st, io.removals);
      } else if !position.Before(st.mem.checkpoint) && CheckpointAccepted(st, position, io.boundaryRead) {
        SavedFollows(st, st.(disk := SaveCheckpoint(st.disk, position)));
        SavedFollows(st, saved);
        FollowsLists(st, saved, 0);
        n := RemoveFollows(saved, io.removals);
        n := FollowsTrans(st, saved, RemoveDelivered(saved, io.removals).0, 0, n);
        if io.save != SaveDone {
          n := 0;
        }
      }
    }
  }

  lemma SavedFollows(st: Store, st1: Store)
    requires Listed(st) && st1.mem == st.mem.(checkpoint := st1.mem.checkpoint) && st1.disk.files == st.disk.files
    requires st.mem.checkpoint.UpTo(st1.mem.checkpoint)
    ensures Follows(st, st1, 0)
  {
  }

  // What is pending only grows.

  lemma ContentsGrow(st: Store, st1: Store, k: nat, i: nat)
    requires Readable(st) && Readable(st1) && Follows(st, st1, k) && k <= i < |st.mem.segments|
    ensures i - k < |st1.mem.segments| && st1.mem.segments[i - k].id == st.mem.segments[i].id
    ensures Contents(st, i) <= Contents(st1, i - k)
    ensures i < |st.mem.segments| - 1 ==> Contents(st, i) == Contents(st1, i - k) && Limit(st, i) == Limit(st1, i - k)
  {
    KeepsAt(st.mem.segments, st1.mem.segments, k, i);
    hide Keeps, AddsBehind, Gone;
  }

  lemma {:induction false} RecordsPrefix(b: Bytes, b1: Bytes, offset: nat)
    requires b <= b1 && Boundary(b, |b|)
    ensures RecordsFrom(b, offset) <= RecordsFrom(b1, offset)
    decreases |b| - offset
  {
    if offset < |b| {
      var e := LineEnd(b, offset);
      assert e <= |b| by { assert b[|b| - 1] == NEWLINE; }
      LineEndSame(b, b1, offset);
      RecordsPrefix(b, b1, e);
      assert b[offset..e - 1] == b1[offset..e - 1];
    }
  }

  lemma {:induction false} LineEndSame(b: Bytes, b1: Bytes, offset: nat)
    requires b <= b1 && offset <= |b| && LineEnd(b, offset) <= |b|
    ensures LineEnd(b1, offset) == LineEnd(b, offset)
    decreases |b| - offset
  {
    if offset < |b| && b[offset] != NEWLINE {
      LineEndSame(b, b1, offset + 1);
    }
  }

  lemma HereGrows(st: Store, st1: Store, k: nat, i: nat, offset: nat)
    requires Readable(st) && Readable(st1) && WholeLimits(st) && Follows(st, st1, k) && k <= i < |st.mem.segments|
    ensures i - k < |st1.mem.segments| && HereFrom(st, i, offset) <= HereFrom(st1, i - k, offset)
    ensures i < |st.mem.segments| - 1 ==> HereFrom(st, i, offset) == HereFrom(st1, i - k, offset)
  {
    assert Boundary(Contents(st, i), |Contents(st, i)|);
    ContentsGrow(st, st1, k, i);
    hide Readable, WholeLimits, Follows, Contents, RecordsFrom, Boundary;
    RecordsPrefix(Contents(st, i), Contents(st1, i - k), offset);
  }

  lemma {:induction false} PendingFromGrows(st: Store, st1: Store, k: nat, i: nat, offset: nat)
    requires Readable(st) && Readable(st1) && WholeLimits(st) && Follows(st, st1, k) && k <= i < |st.mem.segments|
    ensures i - k < |st1.mem.segments| && PendingFrom(st, i, offset) <= PendingFrom(st1, i - k, offset)
    decreases |st.mem.segments| - i
  {
    hide Readable, WholeLimits, Follows, HereFrom, PendingFrom;
    HereGrows(st, st1, k, i, offset);
    HereThenRest(st, i, offset);
    HereThenRest(st1, i - k, offset);
    if i < |st.mem.segments| - 1 {
      PendingFromGrows(st, st1, k, i + 1, 0);
    } else {
      NothingFrom(st);
    }
  }

  lemma HereThenRest(st: Store, i: nat, offset: nat)
    requires Readable(st) && i < |st.mem.segments|
    ensures PendingFrom(st, i, offset) == HereFrom(st, i, offset) + PendingFrom(st, i + 1, 0)
  {
  }

  /** Where a position lies once some segments are gone. */
  lemma IndexMoves(s: seq<Segment>, s1: seq<Segment>, k: nat, id: nat)
    requires Keeps(s, s1, k) && k <= IndexOf(s, id) < |s|
    requires forall i, j :: 0 <= i < j < |s1| ==> s1[i].id < s1[j].id
    ensures IndexOf(s1, id) == IndexOf(s, id) - k
  {
    var i := IndexOf(s, id);
    KeepsAt(s, s1, k, i);
    if i > k {
      KeepsAt(s, s1, k, i - 1);
    }
  }

  /** A position after the checkpoint lies in no deleted segment, or at its end. */
  lemma GoneBehind(st: Store, st1: Store, k: nat, from: Position)
    requires Follows(st, st1, k) && st1.mem.checkpoint.UpTo(from)
    ensures k <= |st.mem.segments|
    ensures var i := IndexOf(st.mem.segments, from.segment);
            i < k ==>
              && i + 1 == k && st.mem.segments[i].id == from.segment && st.mem.segments[i].size <= from.offset
              && IndexOf(st1.mem.segments, from.segment) == 0 && st1.mem.segments[0].id > from.segment
              && (k < |st.mem.segments| ==> st1.mem.segments[0].id == st.mem.segments[k].id)
  {
    var s, s1, i := st.mem.segments, st1.mem.segments, IndexOf(st.mem.segments, from.segment);
    if i < k {
      assert s[k - 1].End().UpTo(st1.mem.checkpoint);
      if k < |s| {
        KeepsAt(s, s1, k, k);
      }
    }
  }

  lemma GoneGrows(st: Store, st1: Store, k: nat, from: Position)
    requires Readable(st) && Readable(st1) && WholeLimits(st) && Follows(st, st1, k) && st1.mem.checkpoint.UpTo(from)
    requires IndexOf(st.mem.segments, from.segment) < k
    ensures Pending(st, from) <= Pending(st1, from)
  {
    hide Follows, Readable, WholeLimits, Limit, Pending, PendingFrom, IndexOf;
    var s, i := st.mem.segments, IndexOf(st.mem.segments, from.segment);
    GoneBehind(st, st1, k, from);
    LimitFits(st, i);
    SkipDone(st, from, i);
    if i + 1 < |s| {
      PendingAt(st, i + 1);
      PendingFromGrows(st, st1, k, i + 1, 0);
      PendingIs(st1, from);
    }
  }

  lemma KeptGrows(st: Store, st1: Store, k: nat, from: Position)
    requires Readable(st) && Readable(st1) && WholeLimits(st) && Follows(st, st1, k)
    requires k <= IndexOf(st.mem.segments, from.segment) < |st.mem.segments|
    ensures Pending(st, from) <= Pending(st1, from)
  {
    hide Follows, Readable, WholeLimits, Pending, PendingFrom, Keeps, IndexOf, Listed;
    var s, i := st.mem.segments, IndexOf(st.mem.segments, from.segment);
    FollowsKeeps(st, st1, k);
    FollowsLists(st, st1, k);
    ListedAscends(st1);
    IndexMoves(s, st1.mem.segments, k, from.segment);
    KeepsAt(s, st1.mem.segments, k, i);
    PendingFromGrows(st, st1, k, i, StartIn(st, i, from));
    PendingIs(st, from);
    PendingIs(st1, from);
  }

  /** From a position at or after the checkpoint, nothing pending is lost and order is kept. */
  lemma PendingGrows(st: Store, st1: Store, k: nat, from: Position)
    requires Readable(st) && Readable(st1) && WholeLimits(st) && Follows(st, st1, k) && st1.mem.checkpoint.UpTo(from)
    ensures Pending(st, from) <= Pending(st1, from)
  {
    hide Follows, Readable, WholeLimits, Pending, PendingFrom, IndexOf;
    var i := IndexOf(st.mem.segments, from.segment);
    if i < k {
      GoneGrows(st, st1, k, from);
    } else if i < |st.mem.segments| {
      KeptGrows(st, st1, k, from);
    } else {
      PendingIs(st, from);
      NothingFrom(st);
    }
  }

  lemma PendingIs(st: Store, from: Position)
    requires Readable(st)
    ensures var i := IndexOf(st.mem.segments, from.segment); Pending(st, from) == PendingFrom(st, i, StartIn(st, i, from))
  {
  }

  lemma LimitFits(st: Store, i: nat)
    requires Readable(st) && i < |st.mem.segments|
    ensures Limit(st, i) <= st.mem.segments[i].size
  {
  }

  lemma FollowsKeeps(st: Store, st1: Store, k: nat)
    requires Follows(st, st1, k)
    ensures Keeps(st.mem.segments, st1.mem.segments, k)
  {
  }

  /** Past the end of a finished or deleted segment, every later store reads on from the next one. */
  lemma KeptSkip(st: Store, st1: Store, k: nat, from: Position)
    requires Readable(st) && Readable(st1) && Follows(st, st1, k)
    requires k <= IndexOf(st.mem.segments, from.segment) < |st.mem.segments|
    ensures var s, i := st.mem.segments, IndexOf(st.mem.segments, from.segment);
            && (s[i].id > from.segment ==> Pending(st1, from) == Pending(st1, Position(s[i].id, 0)))
            && (s[i].id == from.segment && from.offset >= Limit(st, i) && i + 1 < |s| ==>
                  Pending(st1, from) == Pending(st1, Position(s[i + 1].id, 0)))
  {
    hide Readable, Follows, Limit, Pending, Contents, Listed, Keeps, IndexOf;
    var s, s1, i := st.mem.segments, st1.mem.segments, IndexOf(st.mem.segments, from.segment);
    ContentsGrow(st, st1, k, i);
    FollowsKeeps(st, st1, k);
    FollowsLists(st, st1, k);
    ListedAscends(st1);
    IndexMoves(s, s1, k, from.segment);
    if s[i].id > from.segment {
      SkipDeleted(st1, from, i - k);
    } else if i + 1 < |s| && from.offset >= Limit(st, i) {
      KeepsAt(s, s1, k, i + 1);
      SkipDone(st1, from, i - k);
    }
  }

  /** A position that a reader skips from stays as good as the one it skips to. */
  lemma SkipStays(st: Store, st1: Store, k: nat, from: Position, maxRecords: int, maxBytes: int)
    requires Readable(st) && Readable(st1) && Follows(st, st1, k) && st1.mem.checkpoint.UpTo(from)
    requires var turn := NextTurn(st, from, maxRecords, maxBytes); turn.Moved? && turn.read == []
    ensures Pending(st1, from) == Pending(st1, NextTurn(st, from, maxRecords, maxBytes).position)
  {
    hide Readable, Follows, Limit, Pending, NextTurn;
    SkipIs(st, from, maxRecords, maxBytes);
    GoneBehind(st, st1, k, from);
    if IndexOf(st.mem.segments, from.segment) < k {
      FollowsLists(st, st1, k);
      ListedNonempty(st1);
      SkipDeleted(st1, from, 0);
    } else {
      KeptSkip(st, st1, k, from);
    }
  }

  // Reading on from inside what is pending.

  lemma {:induction false} RecordsSplit(b: Bytes, offset: nat, k: nat)
    requires k < |RecordsFrom(b, offset)|
    ensures RecordsFrom(b, RecordsFrom(b, offset)[k].end) == RecordsFrom(b, offset)[k + 1..]
    decreases k
  {
    var e := LineEnd(b, offset);
    if k > 0 {
      RecordsSplit(b, e, k - 1);
    }
  }

  lemma HereSplit(st: Store, i: nat, offset: nat, k: nat)
    requires Readable(st) && i < |st.mem.segments| && k < |HereFrom(st, i, offset)|
    ensures HereFrom(st, i, offset)[k].end.segment == st.mem.segments[i].id
    ensures HereFrom(st, i, HereFrom(st, i, offset)[k].end.offset) == HereFrom(st, i, offset)[k + 1..]
  {
    hide RecordsFrom, Readable;
    RecordsSplit(Contents(st, i), offset, k);
  }

  lemma {:induction false} PendingFromSplit(st: Store, i: nat, offset: nat, k: nat)
    requires Readable(st) && i < |st.mem.segments| && k < |PendingFrom(st, i, offset)|
    ensures Pending(st, PendingFrom(st, i, offset)[k].end) == PendingFrom(st, i, offset)[k + 1..]
    decreases |st.mem.segments| - i
  {
    hide Readable, Pending, HereFrom, PendingFrom;
    var here, rest := HereFrom(st, i, offset), PendingFrom(st, i + 1, 0);
    HereThenRest(st, i, offset);
    if k < |here| {
      HereSplit(st, i, offset, k);
      SplitHere(st, here[k].end, i);
      HereThenRest(st, i, here[k].end.offset);
      assert (here + rest)[k + 1..] == here[k + 1..] + rest;
    } else {
      if i + 1 == |st.mem.segments| {
        NothingFrom(st);
      }
      assert (here + rest)[k + 1..] == rest[k + 1 - |here|..];
      PendingFromSplit(st, i + 1, 0, k - |here|);
    }
  }

  lemma PendingSplit(st: Store, from: Position, k: nat)
    requires Readable(st) && k < |Pending(st, from)|
    ensures Pending(st, Pending(st, from)[k].end) == Pending(st, from)[k + 1..]
  {
    hide Readable, PendingFrom;
    var i := IndexOf(st.mem.segments, from.segment);
    if i < |st.mem.segments| {
      PendingFromSplit(st, i, StartIn(st, i, from), k);
    } else {
      NothingFrom(st);
    }
  }

  lemma NothingFrom(st: Store)
    requires Readable(st)
    ensures PendingFrom(st, |st.mem.segments|, 0) == []
  {
  }

  lemma {:induction false} TakeGrows(a: seq<SpoolRecord>, b: seq<SpoolRecord>, maxRecords: int, maxBytes: int)
    requires a <= b
    ensures Take(a, maxRecords, maxBytes) <= Take(b, maxRecords, maxBytes)
    decreases |a|
  {
    if a != [] && maxRecords > 0 && maxBytes > 0 {
      TakeGrows(a[1..], b[1..], maxRecords - 1, maxBytes - |a[0].data| - 1);
    }
  }

  // A whole read.

  ghost predicate MovesOn(st: Store, st1: Store) {
    exists k: nat :: Follows(st, st1, k)
  }

  /** Stores as a reader finds them one after the other. */
  ghost predicate Succession(stores: seq<Store>)
    decreases |stores|
  {
    stores == [] ||
    (&& Readable(stores[0]) && WholeLimits(stores[0]) && Listed(stores[0])
     && (|stores| > 1 ==> MovesOn(stores[0], stores[1])) && Succession(stores[1..]))
  }

  lemma {:induction false} ReachLast(stores: seq<Store>) returns (k: nat)
    requires Succession(stores) && stores != []
    ensures Follows(stores[0], stores[|stores| - 1], k)
    ensures Readable(stores[|stores| - 1])
    decreases |stores|
  {
    hide Readable, WholeLimits, Follows;
    if |stores| == 1 {
      k := 0;
      FollowsSelf(stores[0]);
    } else {
      var l: nat :| Follows(stores[0], stores[1], l);
      var m := ReachLast(stores[1..]);
      k := FollowsTrans(stores[0], stores[1], stores[|stores| - 1], l, m);
    }
  }

  /** What a reader returns whose turns find the given stores. */
  ghost function ReadOver(stores: seq<Store>, position: Position, maxRecords: int, maxBytes: int): seq<SpoolRecord>
    requires Succession(stores)
    decreases |stores|
  {
    if stores == [] || maxRecords <= 0 || maxBytes <= 0 then []
    else
      var turn := NextTurn(stores[0], position, maxRecords, maxBytes);
      if !turn.Moved? then []
      else turn.read + ReadOver(stores[1..], turn.position, maxRecords - |turn.read|, maxBytes - turn.taken)
  }

  /** The reader stops by itself before the stores run out. */
  ghost predicate Finishes(stores: seq<Store>, position: Position, maxRecords: int, maxBytes: int)
    requires Succession(stores)
    decreases |stores|
  {
    maxRecords <= 0 || maxBytes <= 0 ||
    (stores != [] &&
     var turn := NextTurn(stores[0], position, maxRecords, maxBytes);
     turn.Moved? ==> Finishes(stores[1..], turn.position, maxRecords - |turn.read|, maxBytes - turn.taken))
  }

  /** A turn that reads fits what the last store has pending from there. */
  lemma ReadFits(st: Store, last: Store, k: nat, position: Position, maxRecords: int, maxBytes: int, more: seq<SpoolRecord>)
    requires Readable(st) && Readable(last) && WholeLimits(st) && Follows(st, last, k) && maxRecords > 0 && maxBytes > 0
    requires last.mem.checkpoint.UpTo(position)
    requires var turn := NextTurn(st, position, maxRecords, maxBytes);
             turn.Moved? && turn.read != [] && more <= Pending(last, turn.position)
    ensures NextTurn(st, position, maxRecords, maxBytes).read + more <= Pending(last, position)
  {
    hide NextTurn, Readable, WholeLimits, Follows, Pending;
    var turn := NextTurn(st, position, maxRecords, maxBytes);
    var read := turn.read;
    TurnAdvances(st, position, maxRecords, maxBytes);
    TakeIsLongest(Pending(st, position), maxRecords, maxBytes);
    PendingGrows(st, last, k, position);
    var all := Pending(last, position);
    hide Take;
    assert read <= all && read[|read| - 1] == all[|read| - 1];
    PendingSplit(last, position, |read| - 1);
    assert all == read + all[|read|..];
  }

  lemma TakeEmpty(maxRecords: int, maxBytes: int)
    ensures Take([], maxRecords, maxBytes) == []
  {
  }

  lemma CheckpointAhead(st: Store, st1: Store, k: nat, position: Position)
    requires Follows(st, st1, k) && st1.mem.checkpoint.UpTo(position)
    ensures st.mem.checkpoint.UpTo(position)
  {
  }

  /** What the next store has pending where a turn ended extends what this one had. */
  lemma NextHasMore(st: Store, next: Store, position: Position, maxRecords: int, maxBytes: int)
    requires Readable(st) && Readable(next) && WholeLimits(st) && MovesOn(st, next) && next.mem.checkpoint.UpTo(position)
    ensures Take(Pending(st, position), maxRecords, maxBytes) <= Take(Pending(next, position), maxRecords, maxBytes)
  {
    hide Readable, WholeLimits, Follows, Pending, Take;
    var l: nat :| Follows(st, next, l);
    PendingGrows(st, next, l, position);
    TakeGrows(Pending(st, position), Pending(next, position), maxRecords, maxBytes);
  }

  lemma {:induction false} ReadOverBounds(stores: seq<Store>, position: Position, maxRecords: int, maxBytes: int)
    requires Succession(stores) && stores != [] && stores[|stores| - 1].mem.checkpoint.UpTo(position)
    ensures Readable(stores[|stores| - 1])
    ensures ReadOver(stores, position, maxRecords, maxBytes) <= Pending(stores[|stores| - 1], position)
    ensures Finishes(stores, position, maxRecords, maxBytes) ==>
              Take(Pending(stores[0], position), maxRecords, maxBytes) <= ReadOver(stores, position, maxRecords, maxBytes)
    decreases |stores|
  {
    hide NextTurn, Readable, WholeLimits, Follows, Pending, Take, Listed, MovesOn;
    var st, last := stores[0], stores[|stores| - 1];
    var k := ReachLast(stores);
    if maxRecords <= 0 || maxBytes <= 0 {
      TakeNothing(Pending(st, position), maxRecords, maxBytes);
    } else {
      var turn := NextTurn(st, position, maxRecords, maxBytes);
      TurnAdvances(st, position, maxRecords, maxBytes);
      if turn.Done? {
        TakeEmpty(maxRecords, maxBytes);
      } else {
        var room, left := maxRecords - |turn.read|, maxBytes - turn.taken;
        if turn.read == [] {
          SkipStays(st, last, k, position, maxRecords, maxBytes);
          SkipIs(st, position, maxRecords, maxBytes);
        }
        if |stores| > 1 {
          ReadOverBounds(stores[1..], turn.position, room, left);
          var l := ReachLast(stores[1..]);
          CheckpointAhead(stores[1], last, l, turn.position);
          NextHasMore(st, stores[1], turn.position, room, left);
        } else if room > 0 && left > 0 {
          assert !Finishes([], turn.position, room, left);
          assert stores[1..] == [];
        } else {
          TakeNothing(Pending(st, turn.position), room, left);
        }
        var more := ReadOver(stores[1..], turn.position, room, left);
        if turn.read != [] {
          ReadFits(st, last, k, position, maxRecords, maxBytes, more);
        } else {
          assert [] + more == more;
          assert Take(Pending(st, position), maxRecords, maxBytes) == Take(Pending(st, turn.position), room, left);
        }
      }
    }
  }

  // A read while the process goes on.

  predicate InProcess(step: Step) {
    !step.OpenSpool? && !step.Kill? && !step.PowerLoss?
  }

  lemma InvLists(s: System)
    requires Inv(s) && s.proc.Some?
    ensures var st := R.StoreOf(s); Readable(st) && WholeLimits(st) && Listed(st)
  {
    R.InvIsReadable(s);
    R.Departs(s);
  }

  lemma CloseFollows(st: Store, syncs: bool)
    requires Listed(st)
    ensures Follows(st, CloseStore(st, syncs), 0)
  {
    hide Follows;
    SameFollows(st, CloseStore(st, syncs));
  }

  lemma StepMoves(s: System, step: Step)
    requires Inv(s) && s.proc.Some? && Enabled(s, step) && InProcess(step)
    ensures Apply(s, step).proc.Some? && MovesOn(R.StoreOf(s), R.StoreOf(Apply(s, step)))
  {
    InvLists(s);
    hide Inv, Listed, Follows, Readable, WholeLimits, AppendLocked, FinishSync, Acknowledge, CloseStore;
    var st := R.StoreOf(s);
    ListedNonempty(st);
    FollowsSelf(st);
    match step
    case Append(record, io) => var n := AppendFollows(st, record + [NEWLINE], io);
    case EndSync(ok) => SyncFollows(st, s.sync.value, ok);
    case Ack(position, io) => var n := AckFollows(st, position, io);
    case Close(syncs) => CloseFollows(st, syncs);
    case _ =>
  }

  lemma MovesTrans(a: Store, b: Store, c: Store)
    requires MovesOn(a, b) && MovesOn(b, c)
    ensures MovesOn(a, c)
  {
    hide Follows;
    var k: nat :| Follows(a, b, k);
    var l: nat :| Follows(b, c, l);
    var n := FollowsTrans(a, b, c, k, l);
  }

  lemma {:induction false} RunMoves(s: System, steps: seq<Step>)
    requires Inv(s) && s.proc.Some? && R.Runs(s, steps) && forall i :: 0 <= i < |steps| ==> InProcess(steps[i])
    ensures Inv(R.Exec(s, steps)) && R.Exec(s, steps).proc.Some?
    ensures MovesOn(R.StoreOf(s), R.StoreOf(R.Exec(s, steps)))
    decreases |steps|
  {
    hide Inv, Apply, Enabled, Listed;
    if steps == [] {
      InvLists(s);
      FollowsSelf(R.StoreOf(s));
    } else {
      hide MovesOn;
      R.StepKeeps(s, steps[0]);
      StepMoves(s, steps[0]);
      RunMoves(Apply(s, steps[0]), steps[1..]);
      MovesTrans(R.StoreOf(s), R.StoreOf(Apply(s, steps[0])), R.StoreOf(R.Exec(s, steps)));
    }
  }

  /** What the process does between one turn of the reader and the next. */
  ghost predicate Meanwhile(s: System, plan: seq<seq<Step>>)
    decreases |plan|
  {
    s.proc.Some? &&
    (plan == [] ||
     (&& R.Runs(s, plan[0]) && (forall i :: 0 <= i < |plan[0]| ==> InProcess(plan[0][i]))
      && Meanwhile(R.Exec(s, plan[0]), plan[1..])))
  }

  /** The stores the reader's turns find. */
  ghost function Stores(s: System, plan: seq<seq<Step>>): (stores: seq<Store>)
    requires Meanwhile(s, plan)
    ensures |stores| == |plan| + 1 && stores[0] == R.StoreOf(s)
    decreases |plan|
  {
    [R.StoreOf(s)] + if plan == [] then [] else Stores(R.Exec(s, plan[0]), plan[1..])
  }

  lemma {:induction false} StoresSucceed(s: System, plan: seq<seq<Step>>)
    requires Inv(s) && Meanwhile(s, plan)
    ensures Succession(Stores(s, plan))
    decreases |plan|
  {
    hide Inv, Readable, WholeLimits, Listed, MovesOn;
    InvLists(s);
    var stores := Stores(s, plan);
    if plan == [] {
      assert stores[1..] == [];
    } else {
      RunMoves(s, plan[0]);
      StoresSucceed(R.Exec(s, plan[0]), plan[1..]);
      assert stores[1..] == Stores(R.Exec(s, plan[0]), plan[1..]);
    }
  }

  /**
   A batch read while records are appended, fsynced, rotated, acknowledged and deleted
   in between is a gapless run of what is pending at the end; a read that ran to its
   end has at least what was pending at the start, within the limits.
   */
  lemma ConcurrentRead(s: System, plan: seq<seq<Step>>, from: Position, maxRecords: int, maxBytes: int)
    requires Inv(s) && Meanwhile(s, plan) && Stores(s, plan)[|plan|].mem.checkpoint.UpTo(from)
    ensures var stores := Stores(s, plan);
            && Succession(stores) && Readable(stores[0]) && Readable(stores[|plan|])
            && ReadOver(stores, from, maxRecords, maxBytes) <= Pending(stores[|plan|], from)
            && (Finishes(stores, from, maxRecords, maxBytes) ==>
                  Take(Pending(stores[0], from), maxRecords, maxBytes) <= ReadOver(stores, from, maxRecords, maxBytes))
  {
    hide Inv, Readable, Pending, Take, ReadOver, Finishes;
    StoresSucceed(s, plan);
    ReadOverBounds(Stores(s, plan), from, maxRecords, maxBytes);
  }
}
