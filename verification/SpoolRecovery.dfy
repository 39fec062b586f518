/**
 Crashes and recovery. Opening after a kill adopts what it finds, fsynced or not;
 what a power cut may then do, and what it may not, is stated here.
 */
module SpoolRecovery {
  import opened Framing
  import opened SpoolModel
  import opened SpoolSafety
  import opened SpoolTrust

  // Closing.

  lemma CloseKeeps(st: Store, log: History, syncs: bool)
    requires Good(st, log, None)
    ensures Good(CloseStore(st, syncs), log, None)
  {
    if !st.mem.closed {
      var d1 := if st.mem.active && syncs then Flush(st.disk, log.newest) else st.disk;
      assert Mirrors(st.disk, Last(st.mem));
      if st.mem.active && syncs {
        FlushKeeps(st, log, None, log.newest, |st.disk.files[log.newest].bytes|);
      }
      ClosedKeeps(st.(disk := d1), log);
    }
  }

  lemma ClosedKeeps(st: Store, log: History)
    requires Good(st, log, None)
    ensures Good(st.(mem := st.mem.(closed := true, active := false)), log, None)
  {
    SegmentsUnsaved(st, st.(mem := st.mem.(closed := true, active := false)), log.newest);
  }

  // Power cuts.

  lemma NewestBounds(d: Disk, id: nat)
    requires id in Linked(d)
    ensures id <= Newest(d) && Newest(d) in Linked(d)
  {
    var ids := Sorted(Linked(d));
    var i :| 0 <= i < |ids| && ids[i] == id;
    assert ids[|ids| - 1] in Linked(d);
  }

  lemma NewestLinked(d: Disk)
    ensures Newest(d) > 0 ==> Newest(d) in Linked(d)
  {
    var ids := Sorted(Linked(d));
    if ids != [] {
      assert ids[|ids| - 1] in Linked(d);
    }
  }

  /**
   What a power cut leaves is harmless when every accepted record and every place a
   checkpoint was saved for is still there, at or before the newest listed segment.
   */
  ghost predicate Harmless(after: Disk, log: History) {
    && (forall n :: n in log.accepted ==> OnDisk(after, log.accepted[n]))
    && (forall p :: p in after.everSaved ==> BoundaryOf(after, p))
    && (forall id :: id in after.files ==> id <= Newest(after))
  }

  lemma PowerLossFiles(before: Disk, after: Disk, log: History)
    requires MayRemain(before, after) && FilesInv(Trust(before, log.adopted), log.newest)
    requires OlderFull(before, log.newest) && Harmless(after, log)
    ensures FilesInv(after, Newest(after))
  {
    var d, newest := Trust(before, log.adopted), Newest(after);
    NewestLinked(after);
    forall id | id in after.files && id < newest ensures Complete(after.files[id]) {
      assert id in d.files && newest in d.files;
      assert id <= log.newest && Full(before.files[id]);
      assert Complete(d.files[id]);
      assert after.files[id].bytes == before.files[id].bytes;
    }
    forall id | id in after.files ensures id > 0 {
      assert id in d.files;
    }
  }

  lemma CutRecords(before: Disk, after: Disk, log: History)
    requires MayRemain(before, after) && DeletedSettled(Trust(before, log.adopted), log)
    requires RecordsInPlace(Trust(before, log.adopted), log) && RecordsOrdered(log) && AcceptedKept(log)
    requires Harmless(after, log)
    ensures var log1 := Survived(log, after);
            && RecordsInPlace(after, log1) && RecordsOrdered(log1) && AcceptedKept(log1)
            && AcceptedDurable(after, log1) && DeletedSettled(after, log1)
  {
    hide Newest;
    var d, log1 := Trust(before, log.adopted), Survived(log, after);
    forall n | n in log.accepted ensures n in log1.records && DurableOn(after, log.accepted[n]) {
      assert OnDisk(after, log.accepted[n]);
    }
    forall n | n in log1.records && !Listing(after, log1.records[n].segment) ensures n in log1.settled {
      assert OnDisk(after, log.records[n]) && OnDisk(d, log.records[n]);
      assert !Listing(d, log.records[n].segment);
    }
  }

  lemma CutFsynced(before: Disk, after: Disk, log: History)
    requires MayRemain(before, after) && Harmless(after, log)
    ensures FsyncInv(after, Survived(log, after)) && Stable(after)
  {
    hide Newest;
    forall n | n in log.accepted ensures FsyncedOn(after, log.accepted[n]) {
      assert OnDisk(after, log.accepted[n]);
    }
  }

  /** A harmless cut restores the invariant, on a stable directory. */
  lemma PowerLossKeeps(before: Disk, after: Disk, log: History)
    requires MayRemain(before, after) && DiskInv(Trust(before, log.adopted), log) && FsyncInv(before, log)
    requires Harmless(after, log)
    ensures DiskInv(after, Survived(log, after)) && FsyncInv(after, Survived(log, after))
    ensures Stable(after)
  {
    hide SavedBoundaries, FilesInv, Newest, RecordsInPlace, RecordsOrdered, AcceptedKept, AcceptedDurable, DeletedSettled, Stable;
    var log1 := Survived(log, after);
    PowerLossFiles(before, after, log);
    CutRecords(before, after, log);
    CutFsynced(before, after, log);
    forall p | p in after.everSaved ensures SettledBelow(log1, p) {
      assert SettledBelow(log, p);
    }
    SavedRemain(before, after);
  }

  lemma SavedRemain(before: Disk, after: Disk)
    requires MayRemain(before, after) && forall p :: p in after.everSaved ==> BoundaryOf(after, p)
    ensures SavedBoundaries(after)
  {
  }

  /** The cut keeps every file, and of each at least the bytes, that the last open adopted. */
  ghost predicate KeepsAdopted(after: Disk, adopted: map<nat, nat>) {
    forall id :: id in adopted ==> id in after.files && adopted[id] <= |after.files[id].bytes|
  }

  lemma SurvivorOnDisk(before: Disk, after: Disk, l: Located)
    requires MayRemain(before, after) && OnDisk(before, l) && DurableOn(before, l)
    ensures OnDisk(after, l)
  {
    var b, a := before.files[l.segment].bytes, after.files[l.segment].bytes;
    assert a == b[..|a|];
    IntactInPrefix(b, |a|, l.start, l.data);
  }

  lemma SurvivorBoundary(before: Disk, after: Disk, p: Position)
    requires MayRemain(before, after) && BoundaryOf(before, p)
    ensures BoundaryOf(after, p)
  {
  }

  lemma KeptRemains(before: Disk, after: Disk, adopted: map<nat, nat>)
    requires MayRemain(before, after) && KeepsAdopted(after, adopted)
    ensures MayRemain(Trust(before, adopted), after)
  {
  }

  lemma KeptIsHarmless(before: Disk, after: Disk, log: History)
    requires MayRemain(before, after) && DiskInv(Trust(before, log.adopted), log) && KeepsAdopted(after, log.adopted)
    ensures Harmless(after, log)
  {
    hide MayRemain, Newest;
    var d := Trust(before, log.adopted);
    KeptRemains(before, after, log.adopted);
    forall n | n in log.accepted ensures OnDisk(after, log.accepted[n]) {
      assert OnDisk(d, log.records[n]);
      SurvivorOnDisk(d, after, log.accepted[n]);
    }
    forall p | p in after.everSaved ensures BoundaryOf(after, p) {
      SavedSame(d, after);
      SurvivorBoundary(d, after, p);
    }
    forall id | id in after.files ensures id <= Newest(after) {
      KeptUpToNewest(d, after, log.newest, id);
    }
  }

  lemma SavedSame(before: Disk, after: Disk)
    requires MayRemain(before, after)
    ensures after.everSaved == before.everSaved
  {
  }

  lemma KeptUpToNewest(before: Disk, after: Disk, newest: nat, id: nat)
    requires MayRemain(before, after) && FilesInv(before, newest) && id in after.files
    ensures id <= Newest(after)
  {
    hide Newest;
    assert id in before.files;
    if id <= newest {
      NewestBounds(after, newest);
    } else {
      NewestBounds(after, id);
    }
  }

  /**
   A directory that any cut leaves harmless: accepted records and saved checkpoints
   lie within fsynced bytes of files whose names are fsynced, and such a file is
   listed at or after every deleted one.
   */
  ghost predicate CutSafe(d: Disk, log: History) {
    && (forall n :: n in log.accepted ==> DurableOn(d, log.accepted[n]))
    && (forall p :: p in d.everSaved ==> BoundaryOf(d, p))
    && (forall id :: id in d.files && !d.files[id].linked ==>
          exists j :: j in d.files && id <= j && d.files[j].linked && d.files[j].named)
  }

  lemma CutSafeIsHarmless(before: Disk, after: Disk, log: History)
    requires MayRemain(before, after) && CutSafe(before, log)
    requires forall n :: n in log.accepted ==> OnDisk(before, log.accepted[n])
    ensures Harmless(after, log)
  {
    hide Newest;
    forall n | n in log.accepted ensures OnDisk(after, log.accepted[n]) {
      SurvivorOnDisk(before, after, log.accepted[n]);
    }
    forall p | p in after.everSaved ensures BoundaryOf(after, p) {
      SurvivorBoundary(before, after, p);
    }
    forall id | id in after.files ensures id <= Newest(after) {
      if before.files[id].linked {
        NewestBounds(after, id);
      } else {
        var j :| j in before.files && id <= j && before.files[j].linked && before.files[j].named;
        NewestBounds(after, j);
      }
    }
  }

  /** The cut that loses all it may: no bytes beyond the fsynced ones, no name not fsynced. */
  ghost function Worst(d: Disk, keepUnlinked: bool): Disk
    requires Measured(d)
  {
    Disk(map id | id in d.files && (d.files[id].named || (keepUnlinked && !d.files[id].linked)) ::
           File(d.files[id].bytes[..d.files[id].durable], d.files[id].durable, d.files[id].linked, true),
         NoCheckpoint, d.everSaved)
  }

  lemma WorstRemains(d: Disk, keepUnlinked: bool)
    requires Measured(d)
    ensures MayRemain(d, Worst(d, keepUnlinked))
  {
  }

  lemma WorstShows(d: Disk, log: History)
    requires Measured(d) && (forall id :: id in d.files ==> id > 0)
    requires Harmless(Worst(d, false), log) && Harmless(Worst(d, true), log)
    ensures CutSafe(d, log)
  {
    hide Newest;
    var cut := Worst(d, false);
    forall n | n in log.accepted ensures DurableOn(d, log.accepted[n]) {
      assert OnDisk(cut, log.accepted[n]);
    }
    forall p | p in d.everSaved ensures BoundaryOf(d, p) {
      assert BoundaryOf(cut, p);
    }
    forall id | id in d.files && !d.files[id].linked
      ensures exists j :: j in d.files && id <= j && d.files[j].linked && d.files[j].named
    {
      var rest := Worst(d, true);
      assert id in rest.files && id <= Newest(rest);
      NewestLinked(rest);
      assert Newest(rest) in d.files;
    }
  }

  // Opening.

  lemma CutKeepsRecord(b: Bytes, l: Located)
    requires Intact(b, l.start, l.data)
    ensures Intact(b[..LastBoundary(b)], l.start, l.data)
  {
    assert Boundary(b, l.start + |l.data| + 1);
    IntactInPrefix(b, LastBoundary(b), l.start, l.data);
  }

  lemma RepairKeepsFiles(d: Disk, newest: nat)
    requires FilesInv(d, newest) && Stable(d) && newest > 0
    ensures FilesInv(Repair(d, newest), newest)
    ensures forall id :: id in d.files ==> Complete(Repair(d, newest).files[id])
    ensures Repair(d, newest).files.Keys == d.files.Keys
    ensures forall id: nat :: Listing(d, id) <==> Listing(Repair(d, newest), id)
  {
  }

  lemma RepairKeepsRecords(d: Disk, log: History)
    requires RecordsInPlace(d, log) && FilesInv(d, log.newest) && Stable(d) && log.newest > 0
    ensures RecordsInPlace(Repair(d, log.newest), log)
  {
    var d1 := Repair(d, log.newest);
    forall n | n in log.records ensures OnDisk(d1, log.records[n]) {
      assert OnDisk(d, log.records[n]);
      CutKeepsRecord(d.files[log.records[n].segment].bytes, log.records[n]);
    }
  }

  lemma RepairKeepsPlaces(d: Disk, log: History)
    requires RecordsInPlace(d, log) && SavedBoundaries(d) && FilesInv(d, log.newest) && Stable(d) && log.newest > 0
    requires AcceptedKept(log) && AcceptedDurable(d, log)
    ensures RecordsInPlace(Repair(d, log.newest), log) && SavedBoundaries(Repair(d, log.newest))
    ensures AcceptedDurable(Repair(d, log.newest), log)
  {
    var d1 := Repair(d, log.newest);
    RepairKeepsFiles(d, log.newest);
    RepairKeepsRecords(d, log);
    forall n | n in log.accepted ensures DurableOn(d1, log.accepted[n]) {
      assert OnDisk(d1, log.records[n]) && Complete(d1.files[log.accepted[n].segment]);
    }
    forall p | p in d1.everSaved ensures BoundaryOf(d1, p) {
      assert BoundaryOf(d, p);
    }
  }

  lemma RepairKeeps(d: Disk, log: History)
    requires DiskInv(d, log) && Stable(d) && log.newest > 0
    ensures DiskInv(Repair(d, log.newest), log)
  {
    hide SavedBoundaries, AcceptedDurable, FilesInv, Repair;
    RepairKeepsFiles(d, log.newest);
    RepairKeepsPlaces(d, log);
    RepairSavesNothing(d, log.newest);
  }

  lemma RepairSavesNothing(d: Disk, id: nat)
    requires id in d.files
    ensures Repair(d, id).everSaved == d.everSaved
  {
  }

  lemma NewestIsLast(d: Disk, newest: nat)
    requires FilesInv(d, newest) && Stable(d) && newest > 0
    ensures Sorted(Linked(d)) != [] && Sorted(Linked(d))[|Sorted(Linked(d))| - 1] == newest
  {
    var ids := Sorted(Linked(d));
    assert newest in Linked(d);
    var i :| 0 <= i < |ids| && ids[i] == newest;
    var top := ids[|ids| - 1];
    assert top in Linked(d);
    assert top <= newest;
  }

  lemma NothingBeforeFirst(d: Disk, log: History)
    requires DiskInv(d, log) && Stable(d) && log.newest == 0
    ensures d.files == map[] && log.records == map[] && d.everSaved == {} && Linked(d) == {} && log.accepted == map[]
  {
    assert d.files.Keys == {};
    assert log.records.Keys == {};
    assert log.accepted.Keys == {};
  }

  lemma AdoptedKeeps(d: Disk, log: History)
    requires DiskInv(d, log) && Stable(d)
    ensures var newest := if log.newest == 0 then 1 else log.newest;
            && DiskInv(Adopted(d), Renamed(log, newest))
            && newest in Adopted(d).files
            && (forall id :: id in Adopted(d).files ==> id <= newest && Complete(Adopted(d).files[id]))
  {
    if log.newest == 0 {
      NothingBeforeFirst(d, log);
      assert Sorted(Linked(d)) == [];
      assert Adopted(d).files == map[1 := File([], 0, true, true)];
    } else {
      NewestIsLast(d, log.newest);
      assert Adopted(d) == Repair(d, log.newest);
      RepairKeeps(d, log);
      RepairKeepsFiles(d, log.newest);
      assert Renamed(log, log.newest) == log;
    }
  }

  lemma ListedMirrors(st: Store)
    requires forall id :: id in st.disk.files ==> Complete(st.disk.files[id])
    requires st.mem.segments == Listed(st.disk, Sorted(Linked(st.disk)))
    ensures SegmentsMirror(st) && SegmentsAscend(st.mem.segments)
  {
    var ids := Sorted(Linked(st.disk));
    forall i | 0 <= i < |st.mem.segments| ensures Mirrors(st.disk, st.mem.segments[i]) {
      assert ids[i] in Linked(st.disk);
    }
  }

  lemma ListedCovers(st: Store, newest: nat)
    requires st.mem.segments == Listed(st.disk, Sorted(Linked(st.disk)))
    ensures SegmentsCover(st, newest)
  {
    var ids := Sorted(Linked(st.disk));
    forall id: nat | Listing(st.disk, id) && id <= newest
      ensures exists i :: 0 <= i < |st.mem.segments| && st.mem.segments[i].id == id
    {
      assert id in Linked(st.disk);
      var i :| 0 <= i < |ids| && ids[i] == id;
      assert st.mem.segments[i].id == id;
    }
  }

  lemma ListedSegments(st: Store, newest: nat)
    requires forall id :: id in st.disk.files ==> id <= newest && Complete(st.disk.files[id])
    requires newest in st.disk.files && st.disk.files[newest].linked
    requires st.mem.segments == Listed(st.disk, Sorted(Linked(st.disk)))
    requires st.mem.total == Sum(st.mem.segments)
    ensures SegmentsInv(st, newest)
  {
    var ids := Sorted(Linked(st.disk));
    assert ids != [] && ids[|ids| - 1] == newest by {
      assert newest in Linked(st.disk);
      var k :| 0 <= k < |ids| && ids[k] == newest;
      assert ids[|ids| - 1] in Linked(st.disk);
    }
    ListedMirrors(st);
    ListedCovers(st, newest);
  }

  lemma NotListedBeforeFirst(st: Store, newest: nat, id: nat)
    requires SegmentsInv(st, newest) && id < st.mem.segments[0].id && id <= newest
    ensures !Listing(st.disk, id)
  {
  }

  /** The oldest listed segment starts where everything before it was settled and deleted. */
  lemma OldestSettled(st: Store, log: History)
    requires DeletedSettled(st.disk, log) && SegmentsInv(st, log.newest) && FilesInv(st.disk, log.newest)
    requires RecordsInPlace(st.disk, log)
    ensures SettledBelow(log, Position(st.mem.segments[0].id, 0))
    ensures BoundaryOf(st.disk, Position(st.mem.segments[0].id, 0))
  {
    assert Mirrors(st.disk, st.mem.segments[0]);
    forall n | n in log.records && log.records[n].End().UpTo(Position(st.mem.segments[0].id, 0)) ensures n in log.settled {
      assert OnDisk(st.disk, log.records[n]);
      NotListedBeforeFirst(st, log.newest, log.records[n].segment);
    }
  }

  lemma LoadedSound(st: Store, log: History, boundaryRead: bool)
    requires DiskInv(st.disk, log) && SegmentsInv(st, log.newest)
    requires st.mem.committed == Last(st.mem).End()
    ensures var p := LoadCheckpoint(st, boundaryRead);
            BoundaryOf(st.disk, p) && SettledBelow(log, p) && p.UpTo(st.mem.committed)
  {
    OldestSettled(st, log);
    assert st.mem.segments[0].id <= Last(st.mem).id;
  }

  /** The fields right after `Open` has listed the directory and read the checkpoint. */
  lemma FreshMemoryGood(st: Store, log: History)
    requires DiskInv(st.disk, log) && SegmentsInv(st, log.newest)
    requires forall id :: id in st.disk.files ==> id <= log.newest && Complete(st.disk.files[id])
    requires log.next == log.base + 1 && st.mem.appended == 0 && st.mem.synced == 0
    requires st.mem.active && !st.mem.closed && st.mem.committed == Last(st.mem).End()
    requires CheckpointInv(st, log)
    ensures Good(st, log, None)
  {
    AllDurable(st.disk, log);
    AllBelowEnd(st.disk, log);
    assert Mirrors(st.disk, Last(st.mem));
  }

  ghost function Restarted(log: History, newest: nat, total: int, adopted: map<nat, nat>): History
    requires log.next >= 1
  {
    log.(base := log.next - 1, newest := newest, atOpen := total, adopted := adopted)
  }

  lemma RestartKeepsDisk(d: Disk, log: History, newest: nat, total: int, adopted: map<nat, nat>)
    requires log.next >= 1 && DiskInv(d, Renamed(log, newest))
    ensures DiskInv(d, Restarted(log, newest, total, adopted))
  {
    var a, b := Renamed(log, newest), Restarted(log, newest, total, adopted);
    forall p | p in d.everSaved ensures SettledBelow(b, p) {
      assert SettledBelow(a, p);
    }
    forall n | n in b.records && !Listing(d, b.records[n].segment) ensures n in b.settled {
      assert n in a.records;
    }
  }

  lemma StableOpenKeeps(d: Disk, log: History, maxBytes: nat, io: OpenIO)
    requires log.next >= 1 && DiskInv(d, log) && Stable(d)
    ensures var st := Open(d, maxBytes, io); Good(st, Opened(log, d, st.mem), None)
  {
    hide DiskInv, Good, SegmentsInv, Adopted, RemoveDelivered, LoadCheckpoint, Complete, Lengths;
    var newest := if log.newest == 0 then 1 else log.newest;
    AdoptedKeeps(d, log);
    var d1 := Adopted(d);
    var segments := Listed(d1, Sorted(Linked(d1)));
    var start := Memory(maxBytes, SegmentLimit(maxBytes), segments, true, Sum(segments), 0, 0,
                        segments[|segments| - 1].End(), Position(0, 0), false, false);
    var st0 := Store(start, d1);
    var st1 := Store(start.(checkpoint := LoadCheckpoint(st0, io.boundaryRead)), d1);
    var total := RemoveDelivered(st1, io.removals).0.mem.total;
    var log1 := Restarted(log, newest, total, Lengths(d1));
    RestartKeepsDisk(d1, log, newest, total, Lengths(d1));
    NewestListed(d1, log1);
    ListedSegments(st0, newest);
    ListedSegments(st1, newest);
    LoadedSound(st0, log1, io.boundaryRead);
    FreshMemoryGood(st1, log1);
    RemoveKeeps(st1, log1, None, io.removals);
    GoodNewest(RemoveDelivered(st1, io.removals).0, log1, None);
  }

  lemma NewestListed(d: Disk, log: History)
    requires DiskInv(d, log) && log.newest > 0
    ensures log.newest in d.files && d.files[log.newest].linked
  {
  }

  /** An open is as one after a power cut that lost nothing, which is harmless. */
  lemma AllKeptIsHarmless(d: Disk, log: History)
    requires DiskInv(Trust(d, log.adopted), log)
    ensures MayRemain(d, AllKept(d)) && Harmless(AllKept(d), log)
  {
    hide Newest;
    var t, kept := Trust(d, log.adopted), AllKept(d);
    forall id | id in d.files ensures d.files[id].durable <= |d.files[id].bytes| {
      assert id in t.files;
    }
    forall n | n in log.accepted ensures OnDisk(kept, log.accepted[n]) {
      assert OnDisk(t, log.records[n]);
    }
    forall p | p in kept.everSaved ensures BoundaryOf(kept, p) {
      assert BoundaryOf(t, p);
    }
    forall id | id in kept.files ensures id <= Newest(kept) {
      assert id in t.files;
      if id <= log.newest {
        NewestBounds(kept, log.newest);
      } else {
        NewestBounds(kept, id);
      }
    }
  }

  lemma KeptRecords(d: Disk, log: History)
    requires RecordsInPlace(Trust(d, log.adopted), log)
    ensures Survived(log, AllKept(d)).records == log.records
  {
    forall n | n in log.records ensures OnDisk(AllKept(d), log.records[n]) {
      assert OnDisk(Trust(d, log.adopted), log.records[n]);
    }
  }

  lemma DiskParts(d: Disk, log: History)
    requires DiskInv(Trust(d, log.adopted), log)
    ensures Measured(d) && RecordsInPlace(Trust(d, log.adopted), log) && FilesInv(Trust(d, log.adopted), log.newest)
    ensures 0 !in d.files
  {
    forall id | id in d.files ensures d.files[id].durable <= |d.files[id].bytes| && id > 0 {
      assert id in Trust(d, log.adopted).files;
    }
  }

  /** Opening whatever a kill or a power cut left makes a good process of it. */
  lemma OpenKeeps(d: Disk, log: History, maxBytes: nat, io: OpenIO)
    requires log.next >= 1 && DiskInv(Trust(d, log.adopted), log) && FsyncInv(d, log)
    ensures var st := Open(d, maxBytes, io);
            var log1 := Opened(log, d, st.mem);
            Good(TrustStore(st, log1.adopted), log1, None)
  {
    hide DiskInv, Good, Open, FsyncInv, Harmless, MayRemain, Lengths, Adopted, Newest, AllKept, Measured, RecordsInPlace, FilesInv, Trust, Stable, OnDisk;
    DiskParts(d, log);
    AllKeptIsHarmless(d, log);
    KeptRecords(d, log);
    PowerLossKeeps(d, AllKept(d), log);
    StableOpenKeeps(AllKept(d), Survived(log, AllKept(d)), maxBytes, io);
    TrustOpen(d, maxBytes, io);
    TrustAdopted(d);
    OpenHasSegments(d, maxBytes, io);
  }

  lemma OpenHasSegments(d: Disk, maxBytes: nat, io: OpenIO)
    ensures Open(d, maxBytes, io).mem.segments != []
  {
    hide Scanned, LoadCheckpoint;
  }

  /** What opening does to each file's bytes and fsynced length. */
  lemma OpenFiles(d: Disk, maxBytes: nat, io: OpenIO)
    ensures SameFsyncs(Adopted(d), Open(d, maxBytes, io).disk)
    ensures !Open(d, maxBytes, io).mem.closed && Open(d, maxBytes, io).mem.active && Open(d, maxBytes, io).mem.synced == 0
  {
    hide LoadCheckpoint, Adopted, Listed, Sorted;
  }

  /** Repair changes the newest listed file only, and fsyncs what it cuts. */
  lemma AdoptedFiles(d: Disk, id: nat)
    requires id in Adopted(d).files
    ensures Full(Adopted(d).files[id])
            || (id in d.files && Adopted(d).files[id].bytes == d.files[id].bytes && Adopted(d).files[id].durable == d.files[id].durable)
    ensures id != Newest(d) && Newest(d) > 0 ==> id in d.files && Adopted(d).files[id] == d.files[id]
  {
  }

  lemma NewestFollows(d: Disk, log: History)
    requires FilesInv(Trust(d, log.adopted), log.newest)
    ensures Newest(d) == log.newest || (Newest(d) == log.newest + 1 && log.newest + 1 in d.files)
    ensures Newest(d) + 1 !in d.files
  {
    hide Newest;
    var t := Trust(d, log.adopted);
    NewestLinked(d);
    if log.newest > 0 {
      NewestBounds(d, log.newest);
    }
    if log.newest + 1 in d.files {
      assert log.newest + 1 in t.files;
      NewestBounds(d, log.newest + 1);
    }
    assert Newest(d) > 0 ==> Newest(d) in t.files;
    assert Newest(d) + 1 in d.files ==> Newest(d) + 1 in t.files;
  }

  lemma OpenOlderFull(d: Disk, log: History, id: nat, newest: nat)
    requires FilesInv(Trust(d, log.adopted), log.newest) && FsyncInv(d, log)
    requires newest == if Newest(d) == 0 then 1 else Newest(d)
    requires id in Adopted(d).files && id < newest
    ensures Full(Adopted(d).files[id])
  {
    NewestFollows(d, log);
    hide Newest, Adopted;
    AdoptedFiles(d, id);
    if Newest(d) > 0 {
      assert id in d.files;
    } else {
      assert forall x :: x in d.files ==> x in Trust(d, log.adopted).files;
    }
  }

  lemma OpenLast(d: Disk, maxBytes: nat, io: OpenIO)
    requires 0 !in d.files
    ensures Open(d, maxBytes, io).mem.segments != []
    ensures Last(Open(d, maxBytes, io).mem).id == if Newest(d) == 0 then 1 else Newest(d)
  {
    hide LoadCheckpoint;
    ScannedLast(d, maxBytes);
  }

  lemma ScannedLast(d: Disk, maxBytes: nat)
    requires 0 !in d.files
    ensures Last(Scanned(d, maxBytes).mem).id == if Newest(d) == 0 then 1 else Newest(d)
  {
    var ids := Sorted(Linked(d));
    var linked := Linked(Adopted(d));
    if ids == [] {
      assert linked == {1} by {
        forall x | x in linked ensures x == 1 {
          assert x != 1 ==> x in Linked(d);
        }
      }
    } else {
      assert ids[|ids| - 1] in Linked(d);
      assert linked == Linked(d);
    }
    var sorted := Sorted(linked);
    assert sorted[|sorted| - 1] in linked;
  }

  lemma OpenAccepted(d: Disk, d1: Disk, log: History, l: Located)
    requires SameFsyncs(Adopted(d), d1) && FsyncedOn(d, l) && OnDisk(d1, l)
    ensures FsyncedOn(d1, l)
  {
    hide Adopted;
    AdoptedFiles(d, l.segment);
  }

  lemma OpenFsynced(d: Disk, log: History, maxBytes: nat, io: OpenIO)
    requires log.next >= 1 && DiskInv(Trust(d, log.adopted), log) && FsyncInv(d, log)
    ensures var st := Open(d, maxBytes, io); Fsynced(st, Opened(log, d, st.mem))
  {
    hide DiskInv, Good, Open, Adopted, Newest, FilesInv, Trust, OnDisk, FsyncedOn;
    var st := Open(d, maxBytes, io);
    var log1 := Opened(log, d, st.mem);
    DiskParts(d, log);
    OpenKeeps(d, log, maxBytes, io);
    OpenFiles(d, maxBytes, io);
    OpenLast(d, maxBytes, io);
    assert AdoptedFits(st.disk, log1.adopted);
    GoodHasShape(st, log1, None);
    forall id | id in st.disk.files && id < log1.newest ensures Full(st.disk.files[id]) {
      OpenOlderFull(d, log, id, log1.newest);
    }
    forall n | n in log1.accepted ensures FsyncedOn(st.disk, log1.accepted[n]) {
      OpenAccepted(d, st.disk, log, log1.accepted[n]);
    }
  }
}
