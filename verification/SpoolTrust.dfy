/**
 Taking for durable what an open adopted changes nothing a process does: every
 section commutes with that view of the directory. What the sections really fsync
 is followed beside it.
 */
module SpoolTrust {
  import opened Framing
  import opened SpoolModel
  import opened SpoolSafety

  type Adoption = map<nat, nat>

  // Each section on the trusted view.

  lemma TrustFlushTo(d: Disk, a: Adoption, id: nat, size: nat)
    ensures FlushTo(Trust(d, a), id, size) == Trust(FlushTo(d, id, size), a)
  {
    assert FlushTo(Trust(d, a), id, size).files == Trust(FlushTo(d, id, size), a).files;
  }

  lemma TrustFlush(d: Disk, a: Adoption, id: nat)
    ensures Flush(Trust(d, a), id) == Trust(Flush(d, id), a)
  {
    if id in d.files {
      TrustFlushTo(d, a, id, |d.files[id].bytes|);
    }
  }

  lemma TrustAppendBytes(d: Disk, a: Adoption, id: nat, more: Bytes)
    ensures AppendBytes(Trust(d, a), id, more) == Trust(AppendBytes(d, id, more), a)
  {
    assert AppendBytes(Trust(d, a), id, more).files == Trust(AppendBytes(d, id, more), a).files;
  }

  lemma TrustUnlink(d: Disk, a: Adoption, ids: set<nat>)
    ensures Unlink(Trust(d, a), ids) == Trust(Unlink(d, ids), a)
  {
    assert Unlink(Trust(d, a), ids).files == Trust(Unlink(d, ids), a).files;
  }

  ghost predicate Below(a: Adoption, m: Memory) {
    m.segments != [] && forall id :: id in a ==> id <= Last(m).id
  }

  lemma TrustStartNext(st: Store, a: Adoption, io: CreateIO)
    requires Below(a, st.mem)
    ensures var (st1, ok) := StartNext(st, io);
            StartNext(TrustStore(st, a), io) == (TrustStore(st1, a), ok) && Below(a, st1.mem)
  {
    var next := Last(st.mem).id + 1;
    assert Entry(Trust(st.disk, a), next) == Entry(st.disk, next);
    var st1 := StartNext(st, io).0;
    assert StartNext(TrustStore(st, a), io).0.disk.files == Trust(st1.disk, a).files;
  }

  lemma TrustRotate(st: Store, a: Adoption, io: RotateIO)
    requires Below(a, st.mem)
    ensures var (st1, ok) := Rotate(st, io);
            Rotate(TrustStore(st, a), io) == (TrustStore(st1, a), ok) && Below(a, st1.mem)
  {
    hide StartNext, Flush, Trust;
    TrustFlush(st.disk, a, Last(st.mem).id);
    TrustStartNext(st, a, io.create);
    TrustStartNext(Store(st.mem.(active := false, synced := st.mem.appended), Flush(st.disk, Last(st.mem).id)), a, io.create);
  }

  lemma TrustRemove(st: Store, a: Adoption, removals: nat)
    ensures var (st1, ok) := RemoveDelivered(st, removals);
            RemoveDelivered(TrustStore(st, a), removals) == (TrustStore(st1, a), ok)
            && (Below(a, st.mem) ==> Below(a, st1.mem))
  {
    hide Trust, Unlink;
    var all := Delivered(st.mem.segments, st.mem.checkpoint);
    var n := if all <= removals then all else removals;
    TrustUnlink(st.disk, a, Ids(st.mem.segments[..n]));
  }

  lemma TrustReclaim(st: Store, a: Adoption, io: AppendIO)
    requires Below(a, st.mem)
    ensures var (st1, ok) := Reclaim(st, io);
            Reclaim(TrustStore(st, a), io) == (TrustStore(st1, a), ok) && Below(a, st1.mem)
  {
    hide Rotate, RemoveDelivered, Trust;
    TrustRotate(st, a, io.reclaim);
    TrustRemove(st, a, io.removals);
    TrustRemove(Rotate(st, io.reclaim).0, a, io.removals);
  }

  lemma TrustCapacity(st: Store, a: Adoption, size: nat, io: AppendIO)
    requires Below(a, st.mem)
    ensures var (st1, r) := EnsureCapacity(st, size, io);
            EnsureCapacity(TrustStore(st, a), size, io) == (TrustStore(st1, a), r) && Below(a, st1.mem)
  {
    hide Reclaim, Trust;
    TrustReclaim(st, a, io);
  }

  lemma TrustWrite(st: Store, a: Adoption, line: Bytes, writes: bool)
    requires Below(a, st.mem)
    ensures var (st1, r) := WriteLine(st, line, writes);
            WriteLine(TrustStore(st, a), line, writes) == (TrustStore(st1, a), r) && Below(a, st1.mem)
  {
    hide Trust, AppendBytes;
    TrustAppendBytes(st.disk, a, Last(st.mem).id, line);
  }

  lemma TrustAppend(st: Store, a: Adoption, line: Bytes, io: AppendIO)
    requires Below(a, st.mem)
    ensures var (st1, r) := AppendLocked(st, line, io);
            AppendLocked(TrustStore(st, a), line, io) == (TrustStore(st1, a), r) && Below(a, st1.mem)
  {
    hide EnsureCapacity, Rotate, WriteLine, Trust;
    if !st.mem.closed {
      TrustCapacity(st, a, |line|, io);
      var (st1, room) := EnsureCapacity(st, |line|, io);
      TrustRotate(st1, a, io.rotate);
      TrustWrite(st1, a, line, io.writes);
      var st2 := Rotate(st1, io.rotate).0;
      assert st2.mem.segments != [];
      TrustWrite(st2, a, line, io.writes);
    }
  }

  lemma TrustFinishSync(st: Store, a: Adoption, c: Capture, ok: bool)
    ensures FinishSync(TrustStore(st, a), c, ok) == TrustStore(FinishSync(st, c, ok), a)
  {
    hide Trust, FlushTo;
    TrustFlushTo(st.disk, a, c.segment, c.size);
  }

  lemma TrustClose(st: Store, a: Adoption, syncs: bool)
    requires st.mem.segments != []
    ensures CloseStore(TrustStore(st, a), syncs) == TrustStore(CloseStore(st, syncs), a)
  {
    hide Trust, Flush;
    TrustFlush(st.disk, a, Last(st.mem).id);
  }

  lemma TrustValid(st: Store, a: Adoption, p: Position)
    ensures ValidCheckpoint(TrustStore(st, a), p) <==> ValidCheckpoint(st, p)
  {
    assert Trust(st.disk, a).files.Keys == st.disk.files.Keys;
    forall i | 0 <= i < |st.mem.segments| && st.mem.segments[i].id in st.disk.files
      ensures Trust(st.disk, a).files[st.mem.segments[i].id].bytes == st.disk.files[st.mem.segments[i].id].bytes
    {
    }
  }

  lemma TrustAck(st: Store, a: Adoption, p: Position, io: AckIO)
    ensures var (st1, r) := Acknowledge(st, p, io);
            Acknowledge(TrustStore(st, a), p, io) == (TrustStore(st1, a), r)
  {
    hide ValidCheckpoint, RemoveDelivered;
    TrustValid(st, a, p);
    TrustRemove(st, a, io.removals);
    var st1 := Store(st.mem.(checkpoint := p), SaveCheckpoint(st.disk, p));
    TrustRemove(st1, a, io.removals);
    assert SaveCheckpoint(Trust(st.disk, a), p) == Trust(SaveCheckpoint(st.disk, p), a);
  }

  // Opening: as if a power cut had lost nothing.

  /** The outcome of a power cut that loses nothing. */
  function AllKept(d: Disk): Disk {
    d.(files := map id | id in d.files :: d.files[id].(durable := |d.files[id].bytes|, named := true))
  }

  ghost predicate Measured(d: Disk) {
    forall id :: id in d.files ==> d.files[id].durable <= |d.files[id].bytes|
  }

  lemma TrustRepair(d: Disk, id: nat)
    requires Measured(d) && id in d.files
    ensures Repair(AllKept(d), id) == Trust(Repair(d, id), Lengths(Repair(d, id)))
  {
    assert Repair(AllKept(d), id).files == Trust(Repair(d, id), Lengths(Repair(d, id))).files;
  }

  lemma TrustAdopted(d: Disk)
    requires Measured(d)
    ensures Adopted(AllKept(d)) == Trust(Adopted(d), Lengths(Adopted(d)))
    ensures Lengths(Adopted(AllKept(d))) == Lengths(Adopted(d))
  {
    hide Repair, Trust, Lengths, AllKept;
    SameLinked(d);
    var ids := Sorted(Linked(d));
    if ids != [] {
      var last := ids[|ids| - 1];
      assert last in Linked(d);
      TrustRepair(d, last);
    } else {
      TrustFirst(d);
    }
    TrustLengths(Adopted(d), Lengths(Adopted(d)));
  }

  lemma SameLinked(d: Disk)
    ensures Linked(AllKept(d)) == Linked(d) && AllKept(d).files.Keys == d.files.Keys
  {
  }

  /** The first segment, created in a directory that lists none. */
  lemma TrustFirst(d: Disk)
    requires Measured(d) && Linked(d) == {}
    ensures var d1 := d.(files := d.files[1 := Entry(d, 1).(named := true)]);
            AllKept(d).(files := AllKept(d).files[1 := Entry(AllKept(d), 1).(named := true)]) == Trust(d1, Lengths(d1))
  {
    var d1 := d.(files := d.files[1 := Entry(d, 1).(named := true)]);
    assert 1 in d.files ==> !d.files[1].linked by { assert 1 !in Linked(d); }
    assert AllKept(d).files[1 := Entry(AllKept(d), 1).(named := true)] == Trust(d1, Lengths(d1)).files;
  }

  lemma TrustLengths(d: Disk, a: Adoption)
    ensures Lengths(Trust(d, a)) == Lengths(d)
  {
  }

  lemma TrustLoad(st: Store, a: Adoption, boundaryRead: bool)
    requires st.mem.segments != []
    ensures LoadCheckpoint(TrustStore(st, a), boundaryRead) == LoadCheckpoint(st, boundaryRead)
  {
    hide ValidCheckpoint;
    if st.disk.saved.Saved? {
      TrustValid(st, a, st.disk.saved.at);
    }
  }

  lemma TrustScanned(d: Disk, maxBytes: nat)
    requires Measured(d)
    ensures Scanned(AllKept(d), maxBytes) == TrustStore(Scanned(d, maxBytes), Lengths(Adopted(d)))
  {
    TrustAdopted(d);
    hide Adopted;
    var d1 := Adopted(d);
    var a := Lengths(d1);
    assert Linked(Trust(d1, a)) == Linked(d1);
    assert Listed(Trust(d1, a), Sorted(Linked(d1))) == Listed(d1, Sorted(Linked(d1)));
  }

  lemma TrustOpen(d: Disk, maxBytes: nat, io: OpenIO)
    requires Measured(d)
    ensures Open(AllKept(d), maxBytes, io) == TrustStore(Open(d, maxBytes, io), Lengths(Adopted(d)))
  {
    hide Scanned, LoadCheckpoint, RemoveDelivered, Adopted;
    var a := Lengths(Adopted(d));
    var st := Scanned(d, maxBytes);
    TrustScanned(d, maxBytes);
    TrustLoad(st, a, io.boundaryRead);
    TrustRemove(st.(mem := st.mem.(checkpoint := LoadCheckpoint(st, io.boundaryRead))), a, io.removals);
  }

  // What is really fsynced.

  /** What the trusted view says about the directory, without its durability. */
  ghost predicate Shape(st: Store, log: History) {
    && st.mem.segments != [] && Last(st.mem).id == log.newest && log.newest in st.disk.files
    && (st.mem.active ==> log.newest + 1 !in st.disk.files)
    && (forall id :: id in st.disk.files ==> id <= log.newest + 1)
    && (log.newest + 1 in st.disk.files ==> st.disk.files[log.newest + 1] == File([], 0, true, false))
    && log.newest + 1 !in log.adopted
    && (forall n :: n in log.records ==> log.records[n].segment <= log.newest && OnDisk(st.disk, log.records[n]))
    && (forall n :: n in log.accepted ==> n in log.records && log.records[n] == log.accepted[n])
  }

  lemma GoodHasShape(st: Store, log: History, sync: Option<Capture>)
    requires Good(TrustStore(st, log.adopted), log, sync) && AdoptedFits(st.disk, log.adopted)
    ensures Shape(st, log) && Measured(st.disk) && Below(log.adopted, st.mem)
  {
    hide SegmentsCover, SavedSettled, SavedBoundaries, CheckpointInv, Numbered;
    var d := Trust(st.disk, log.adopted);
    forall n | n in log.records ensures log.records[n].segment <= log.newest && OnDisk(st.disk, log.records[n]) {
      assert OnDisk(d, log.records[n]);
    }
    forall id | id in st.disk.files ensures st.disk.files[id].durable <= |st.disk.files[id].bytes| && id <= log.newest + 1 {
      assert id in d.files;
    }
    assert log.newest + 1 in d.files ==> d.files[log.newest + 1] == File([], 0, true, false);
  }

  ghost predicate Fsynced(st: Store, log: History) {
    FsyncInv(st.disk, log) && ProcFsynced(st, log)
  }

  lemma StartNextFsynced(st: Store, log: History, io: CreateIO)
    requires Shape(st, log) && Fsynced(st, log) && !st.mem.active && !st.mem.closed
    ensures var st1 := StartNext(st, io).0; Fsynced(st1, Rotated(log, st1.mem))
  {
    hide OnDisk;
  }

  lemma FlushFull(d: Disk, id: nat)
    requires Measured(d) && id in d.files
    ensures Flush(d, id).files.Keys == d.files.Keys
    ensures Full(Flush(d, id).files[id])
    ensures forall x :: x in d.files && x != id ==> Flush(d, id).files[x] == d.files[x]
    ensures Flush(d, id).files[id] == d.files[id].(durable := |d.files[id].bytes|)
  {
  }

  lemma InFull(d: Disk, l: Located)
    requires OnDisk(d, l) && Full(d.files[l.segment])
    ensures FsyncedOn(d, l)
  {
  }

  lemma EndSegmentFsynced(st: Store, log: History)
    requires Shape(st, log) && Measured(st.disk) && Fsynced(st, log) && st.mem.active
    ensures var st1 := Store(st.mem.(active := false, synced := st.mem.appended), Flush(st.disk, log.newest));
            Fsynced(st1, log) && Shape(st1, log) && Measured(st1.disk)
  {
    hide Flush, Intact;
    FlushFull(st.disk, log.newest);
    var d1 := Flush(st.disk, log.newest);
    forall n | n in log.records ensures FsyncedOn(d1, log.records[n]) && OnDisk(d1, log.records[n]) {
      InFull(d1, log.records[n]);
    }
  }

  lemma RotateFsynced(st: Store, log: History, sync: Option<Capture>, io: RotateIO)
    requires Good(TrustStore(st, log.adopted), log, sync) && Fsynced(st, log) && !st.mem.closed
    ensures var st1 := Rotate(st, io).0; Fsynced(st1, Rotated(log, st1.mem))
  {
    hide Good, StartNext, Fsynced, Flush;
    GoodFits(st, log, sync);
    GoodHasShape(st, log, sync);
    assert Rotated(log, st.mem) == log;
    if !st.mem.active {
      StartNextFsynced(st, log, io.create);
    } else if io.syncs {
      EndSegmentFsynced(st, log);
      var flushed := Store(st.mem.(active := false, synced := st.mem.appended), Flush(st.disk, log.newest));
      FlushOnlyFsynced(st, log);
      StartNextFsynced(flushed, log, io.create);
    }
  }

  lemma GoodFits(st: Store, log: History, sync: Option<Capture>)
    requires Fsynced(st, log)
    ensures AdoptedFits(st.disk, log.adopted)
  {
  }

  lemma FlushOnlyFsynced(st: Store, log: History)
    requires Shape(st, log) && Measured(st.disk) && Fsynced(st, log)
    ensures Fsynced(st.(disk := Flush(st.disk, log.newest)), log)
  {
    hide Flush;
    FlushFull(st.disk, log.newest);
  }

  /** A change that leaves every file's bytes and fsynced length, and the counters, as they are. */
  ghost predicate SameFsyncs(d: Disk, d1: Disk) {
    d1.files.Keys == d.files.Keys &&
    forall id :: id in d.files ==> d1.files[id].bytes == d.files[id].bytes && d1.files[id].durable == d.files[id].durable
  }

  lemma SameFsynced(st: Store, st1: Store, log: History)
    requires Fsynced(st, log) && SameFsyncs(st.disk, st1.disk)
    requires st1.mem.active == st.mem.active && st1.mem.closed == st.mem.closed && st1.mem.synced == st.mem.synced
    ensures Fsynced(st1, log)
  {
  }

  lemma RemoveFsynced(st: Store, log: History, removals: nat)
    requires Fsynced(st, log)
    ensures Fsynced(RemoveDelivered(st, removals).0, log)
  {
    SameFsynced(st, RemoveDelivered(st, removals).0, log);
  }

  lemma ReclaimFsynced(st: Store, log: History, sync: Option<Capture>, io: AppendIO)
    requires Good(TrustStore(st, log.adopted), log, sync) && Fsynced(st, log) && !st.mem.closed
    ensures st.mem.segments != []
    ensures var st1 := Reclaim(st, io).0; Fsynced(st1, Rotated(log, st1.mem))
  {
    hide Good, Rotate, RemoveDelivered, Fsynced;
    GoodNewest(TrustStore(st, log.adopted), log, sync);
    RotateFsynced(st, log, sync, io.reclaim);
    RemoveFsynced(st, log, io.removals);
    var st1 := Rotate(st, io.reclaim).0;
    RemoveFsynced(st1, Rotated(log, st1.mem), io.removals);
    assert Rotated(log, RemoveDelivered(st1, io.removals).0.mem) == Rotated(log, st1.mem);
    assert Rotated(log, RemoveDelivered(st, io.removals).0.mem) == log;
  }

  lemma CapacityFsynced(st: Store, log: History, sync: Option<Capture>, size: nat, io: AppendIO)
    requires Good(TrustStore(st, log.adopted), log, sync) && Fsynced(st, log) && !st.mem.closed
    ensures st.mem.segments != []
    ensures var st1 := EnsureCapacity(st, size, io).0; Fsynced(st1, Rotated(log, st1.mem))
  {
    hide Good, Reclaim, Fsynced;
    GoodNewest(TrustStore(st, log.adopted), log, sync);
    ReclaimFsynced(st, log, sync, io);
    var st1 := if size <= st.mem.maxBytes && size > st.mem.maxBytes - st.mem.total then Reclaim(st, io).0 else st;
    SameFsynced(st1, st1.(mem := st1.mem.(full := true)), Rotated(log, st1.mem));
    SameFsynced(st1, st1.(mem := st1.mem.(full := false)), Rotated(log, st1.mem));
  }

  lemma WriteFsynced(st: Store, log: History, record: Bytes)
    requires Shape(st, log) && Fsynced(st, log) && st.mem.active && log.next > log.base + st.mem.synced
    ensures var st1 := WriteLine(st, record + [NEWLINE], true).0; Fsynced(st1, Written(log, st1.mem, record))
  {
  }

  /** Good on the trusted view, and what is fsynced, before and after a line is written. */
  lemma WrittenFsynced(st: Store, log: History, sync: Option<Capture>, record: Bytes, writes: bool)
    requires st.mem.segments != []
    requires Good(TrustStore(st, log.adopted), Rotated(log, st.mem), sync) && Fsynced(st, Rotated(log, st.mem))
    requires st.mem.active
    ensures var (st1, r) := WriteLine(st, record + [NEWLINE], writes);
            Fsynced(st1, Rotated(if r.Ok? then Written(log, st1.mem, record) else log, st1.mem))
  {
    var log0 := Rotated(log, st.mem);
    GoodHasShape(st, log0, sync);
    GoodNumbers(TrustStore(st, log.adopted), log0, sync);
    hide Good, Fsynced;
    if writes {
      WriteFsynced(st, log0, record);
      var st1 := WriteLine(st, record + [NEWLINE], true).0;
      assert Rotated(Written(log, st1.mem, record), st1.mem) == Written(log0, st1.mem, record);
    }
  }

  lemma GoodNumbers(st: Store, log: History, sync: Option<Capture>)
    requires Good(st, log, sync)
    ensures log.next > log.base + st.mem.synced
  {
  }

  lemma AppendFsynced(st: Store, log: History, sync: Option<Capture>, record: Bytes, io: AppendIO)
    requires Good(TrustStore(st, log.adopted), log, sync) && Fsynced(st, log)
    ensures st.mem.segments != []
    ensures var (st1, r) := AppendLocked(st, record + [NEWLINE], io);
            Fsynced(st1, Rotated(if r.Ok? then Written(log, st1.mem, record) else log, st1.mem))
  {
    hide Good, EnsureCapacity, Rotate, WriteLine, Fsynced;
    GoodNewest(TrustStore(st, log.adopted), log, sync);
    var line, a := record + [NEWLINE], log.adopted;
    if !st.mem.closed {
      CapacityFsynced(st, log, sync, |line|, io);
      EnsureCapacityKeeps(TrustStore(st, a), log, sync, |line|, io);
      FsyncedBelow(st, log, sync);
      TrustCapacity(st, a, |line|, io);
      var (st1, room) := EnsureCapacity(st, |line|, io);
      var log1 := Rotated(log, st1.mem);
      if room.Ok? {
        if NeedsRotation(st1.mem, |line|) {
          RotateFsynced(st1, log1, sync, io.rotate);
          RotateKeeps(TrustStore(st1, a), log1, sync, io.rotate);
          TrustRotate(st1, a, io.rotate);
          var (st2, ok) := Rotate(st1, io.rotate);
          if ok {
            WrittenFsynced(st2, log, sync, record, io.writes);
          }
        } else {
          WrittenFsynced(st1, log, sync, record, io.writes);
        }
      }
    }
  }

  lemma FsyncedBelow(st: Store, log: History, sync: Option<Capture>)
    requires Good(TrustStore(st, log.adopted), log, sync) && Fsynced(st, log)
    ensures Below(log.adopted, st.mem)
  {
    GoodHasShape(st, log, sync);
  }

  lemma FlushToFsynced(d: Disk, log: History, id: nat, size: nat)
    requires FsyncInv(d, log) && id in d.files && size <= |d.files[id].bytes|
    ensures FsyncInv(FlushTo(d, id, size), log)
  {
  }

  lemma FinishSyncFsynced(st: Store, log: History, c: Capture, ok: bool)
    requires Good(TrustStore(st, log.adopted), log, Some(c)) && Fsynced(st, log)
    ensures Fsynced(FinishSync(st, c, ok), log)
  {
    hide Good, FsyncInv, FlushTo, Shape, FsyncedOn, WrittenUpTo, OnDisk;
    if ok {
      GoodFits(st, log, Some(c));
      GoodHasShape(st, log, Some(c));
      CaptureShape(st, log, c);
      FlushToFsynced(st.disk, log, c.segment, c.size);
      InactiveStaysFull(st, log, c);
      var st1 := FinishSync(st, c, true);
      forall n | log.base < n <= log.base + st1.mem.synced && n in log.records ensures FsyncedOn(st1.disk, log.records[n]) {
        CapturedFsynced(st, log, c, n);
      }
    }
  }

  lemma InactiveStaysFull(st: Store, log: History, c: Capture)
    requires Shape(st, log) && c.segment in st.disk.files && c.size <= |st.disk.files[c.segment].bytes|
    ensures var d1 := FlushTo(st.disk, c.segment, c.size);
            log.newest in d1.files && (Full(st.disk.files[log.newest]) ==> Full(d1.files[log.newest]))
  {
  }

  lemma CaptureShape(st: Store, log: History, c: Capture)
    requires Good(TrustStore(st, log.adopted), log, Some(c))
    ensures c.segment in st.disk.files && c.segment <= log.newest && c.size <= |st.disk.files[c.segment].bytes|
    ensures WrittenUpTo(log, log.base + c.target, Position(c.segment, c.size))
  {
  }

  lemma CapturedFsynced(st: Store, log: History, c: Capture, n: nat)
    requires Shape(st, log) && Measured(st.disk) && Fsynced(st, log)
    requires c.segment in st.disk.files && c.segment <= log.newest && c.size <= |st.disk.files[c.segment].bytes|
    requires WrittenUpTo(log, log.base + c.target, Position(c.segment, c.size))
    requires n in log.records && log.base < n && (n <= log.base + c.target || n <= log.base + st.mem.synced)
    ensures FsyncedOn(FlushTo(st.disk, c.segment, c.size), log.records[n])
  {
    assert OnDisk(st.disk, log.records[n]);
  }

  lemma AcceptFsynced(st: Store, log: History, sync: Option<Capture>, g: nat)
    requires Good(TrustStore(st, log.adopted), log, sync) && Fsynced(st, log) && 1 <= g <= st.mem.synced
    ensures Fsynced(st, Accepted(log, log.base + g))
  {
    SyncedRecord(TrustStore(st, log.adopted), log, g);
  }

  lemma AckFsynced(st: Store, log: History, p: Position, io: AckIO)
    requires Fsynced(st, log)
    ensures Fsynced(Acknowledge(st, p, io).0, AckLog(st, log, p, io))
  {
    hide RemoveDelivered, Fsynced, CheckpointAccepted;
    var saved := st.(disk := SaveCheckpoint(st.disk, p));
    SameFsynced(st, saved, log);
    var moved := saved.(mem := st.mem.(checkpoint := p));
    SameFsynced(st, moved, log);
    RemoveFsynced(st, log, io.removals);
    RemoveFsynced(moved, log, io.removals);
    SettledFsynced(Acknowledge(st, p, io).0, log, p);
  }

  lemma SettledFsynced(st: Store, log: History, p: Position)
    requires Fsynced(st, log)
    ensures Fsynced(st, Settled(log, p))
  {
  }

  lemma CloseFsynced(st: Store, log: History, syncs: bool)
    requires Good(TrustStore(st, log.adopted), log, None) && Fsynced(st, log)
    ensures st.mem.segments != [] && Fsynced(CloseStore(st, syncs), log)
  {
    GoodHasShape(st, log, None);
    hide Good, Flush;
    FlushOnlyFsynced(st, log);
  }
}
