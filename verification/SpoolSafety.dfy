/**
 Runs of the spool: processes that open, append, fsync, rotate, acknowledge,
 reclaim and close, interrupted at any point by a kill or a power cut. The
 invariant kept by every step is what makes an accepted record survive.
 */
module SpoolSafety {
  import opened Framing
  import opened SpoolModel

  /** Where a record was written. */
  datatype Located = Located(segment: nat, start: nat, data: Bytes) {
    function Start(): Position {
      Position(segment, start)
    }

    function End(): Position {
      Position(segment, start + |data| + 1)
    }
  }

  /**
   What has happened so far. Records are numbered from 1 over all processes;
   the current process numbers its own from `base`. `records` are those still
   in a file, `accepted` those whose Append returned without an error, `settled`
   those in place below a position handed to acknowledge. `newest` is the
   number of the newest named segment, `atOpen` the size found at open. `adopted`
   are the files and lengths the last open since a power cut found and took for
   durable, whether or not an fsync had made them so.
   */
  datatype History = History(
    records: map<nat, Located>,
    accepted: map<nat, Located>,
    settled: set<nat>,
    base: nat,
    next: nat,
    newest: nat,
    atOpen: int,
    adopted: map<nat, nat>)

  datatype System = System(disk: Disk, proc: Option<Memory>, sync: Option<Capture>, log: History)

  const EMPTY := System(Disk(map[], NoCheckpoint, {}), None, None, History(map[], map[], {}, 0, 1, 0, 0, map[]))

  datatype Step =
    | OpenSpool(maxBytes: nat, openIO: OpenIO)
    | Append(record: Bytes, appendIO: AppendIO)
    | BeginSync(generation: nat)
    | EndSync(ok: bool)
    | Accept(generation: nat)
    | Ack(position: Position, ackIO: AckIO)
    | Close(syncs: bool)
    | Kill
    | PowerLoss(after: Disk)

  predicate Enabled(s: System, step: Step) {
    match step
    case OpenSpool(maxBytes, _) => s.proc.None? && maxBytes > 0
    case Append(record, _) => s.proc.Some? && NoNewline(record) && s.proc.value.segments != []
    case BeginSync(g) =>
      && s.proc.Some? && s.sync.None? && s.proc.value.active && s.proc.value.segments != []
      && s.proc.value.synced < g <= s.proc.value.appended
    case EndSync(_) => s.proc.Some? && s.sync.Some?
    case Accept(g) => s.proc.Some? && 1 <= g <= s.proc.value.synced
    case Ack(_, _) => s.proc.Some?
    case Close(_) => s.proc.Some? && s.sync.None? && s.proc.value.segments != []
    case Kill => s.proc.Some?
    case PowerLoss(after) => MayRemain(s.disk, after)
  }

  function Apply(s: System, step: Step): System
    requires Enabled(s, step)
  {
    match step
    case OpenSpool(maxBytes, io) =>
      var st := Open(s.disk, maxBytes, io);
      System(st.disk, Some(st.mem), None, Opened(s.log, s.disk, st.mem))
    case Append(record, io) =>
      var (st, r) := AppendLocked(Store(s.proc.value, s.disk), record + [NEWLINE], io);
      System(st.disk, Some(st.mem), s.sync, Rotated(if r.Ok? then Written(s.log, st.mem, record) else s.log, st.mem))
    case BeginSync(_) =>
      s.(sync := Some(StartSync(s.proc.value)))
    case EndSync(ok) =>
      var st := FinishSync(Store(s.proc.value, s.disk), s.sync.value, ok);
      System(st.disk, Some(st.mem), None, s.log)
    case Accept(g) =>
      s.(log := Accepted(s.log, s.log.base + g))
    case Ack(position, io) =>
      var st := Store(s.proc.value, s.disk);
      System(Acknowledge(st, position, io).0.disk, Some(Acknowledge(st, position, io).0.mem), s.sync,
             if Acknowledge(st, position, io).0.disk.everSaved != s.disk.everSaved
             then Settled(s.log, position) else s.log)
    case Close(syncs) =>
      var st := CloseStore(Store(s.proc.value, s.disk), syncs);
      System(st.disk, Some(st.mem), None, s.log)
    case Kill =>
      s.(proc := None, sync := None)
    case PowerLoss(after) =>
      System(after, None, None, Survived(s.log, after))
  }

  function Opened(log: History, d: Disk, m: Memory): History {
    Rotated(log.(base := if log.next > 0 then log.next - 1 else 0, atOpen := m.total, adopted := Lengths(Adopted(d))), m)
  }

  function Rotated(log: History, m: Memory): History {
    if m.segments == [] then log else log.(newest := Last(m).id)
  }

  /** The record just written ends where the last segment now ends. */
  function Written(log: History, m: Memory, record: Bytes): History {
    if m.segments == [] || Last(m).size < |record| + 1 then log
    else
      log.(records := log.records[log.next := Located(Last(m).id, Last(m).size - |record| - 1, record)],
           next := log.next + 1)
  }

  function Accepted(log: History, n: nat): History {
    if n in log.records then log.(accepted := log.accepted[n := log.records[n]]) else log
  }

  function Settled(log: History, position: Position): History {
    log.(settled := log.settled + set n | n in log.records && log.records[n].End().UpTo(position))
  }

  function Survived(log: History, after: Disk): History {
    log.(records := map n | n in log.records && OnDisk(after, log.records[n]) :: log.records[n],
         newest := Newest(after),
         adopted := map[])
  }

  predicate OnDisk(d: Disk, l: Located) {
    l.segment in d.files && Intact(d.files[l.segment].bytes, l.start, l.data)
  }

  // The invariant on the directory.

  ghost predicate RecordsInPlace(d: Disk, log: History) {
    forall n :: n in log.records ==> 1 <= n < log.next && OnDisk(d, log.records[n])
  }

  ghost predicate RecordsOrdered(log: History) {
    forall n, k :: n in log.records && k in log.records && n < k ==>
      log.records[n].End().UpTo(log.records[k].Start())
  }

  ghost predicate DurableOn(d: Disk, l: Located) {
    l.segment in d.files && l.End().offset <= d.files[l.segment].durable && d.files[l.segment].named
  }

  ghost predicate AcceptedKept(log: History) {
    forall n :: n in log.accepted ==> n in log.records && log.records[n] == log.accepted[n]
  }

  ghost predicate AcceptedDurable(d: Disk, log: History) {
    forall n :: n in log.accepted ==> DurableOn(d, log.accepted[n])
  }

  /** Only settled records have lost their file's name. */
  ghost predicate DeletedSettled(d: Disk, log: History) {
    forall n :: n in log.records && !Listing(d, log.records[n].segment) ==> n in log.settled
  }

  ghost predicate Listing(d: Disk, id: nat) {
    id in d.files && d.files[id].linked
  }

  ghost predicate SettledBelow(log: History, p: Position) {
    forall n :: n in log.records && log.records[n].End().UpTo(p) ==> n in log.settled
  }

  ghost predicate BoundaryOf(d: Disk, p: Position) {
    && p.segment in d.files
    && Boundary(d.files[p.segment].bytes, p.offset)
    && p.offset <= d.files[p.segment].durable
    && d.files[p.segment].named
  }

  ghost predicate SavedBoundaries(d: Disk) {
    && (d.saved.Saved? ==> d.saved.at in d.everSaved)
    && forall p :: p in d.everSaved ==> BoundaryOf(d, p)
  }

  ghost predicate SavedSettled(d: Disk, log: History) {
    forall p :: p in d.everSaved ==> SettledBelow(log, p)
  }

  ghost predicate Complete(f: File) {
    f.named && f.durable == |f.bytes| && Boundary(f.bytes, |f.bytes|)
  }

  /** Files before the newest are complete; one empty, unnamed file may follow it. */
  ghost predicate FilesInv(d: Disk, newest: nat) {
    && (forall id :: id in d.files ==> id > 0 && d.files[id].durable <= |d.files[id].bytes|)
    && (forall id :: id in d.files && id < newest ==> Complete(d.files[id]))
    && (newest > 0 ==> newest in d.files && d.files[newest].named && d.files[newest].linked)
    && (forall id :: id in d.files && id > newest ==> id == newest + 1 && d.files[id] == File([], 0, true, false))
    && (newest > 0 && newest + 1 in d.files ==> Complete(d.files[newest]))
  }

  ghost predicate DiskInv(d: Disk, log: History) {
    && RecordsInPlace(d, log)
    && RecordsOrdered(log)
    && AcceptedKept(log)
    && AcceptedDurable(d, log)
    && DeletedSettled(d, log)
    && SavedBoundaries(d)
    && SavedSettled(d, log)
    && FilesInv(d, log.newest)
  }

  // The invariant on a running process.

  ghost predicate Mirrors(d: Disk, seg: Segment) {
    && Listing(d, seg.id)
    && d.files[seg.id].named
    && |d.files[seg.id].bytes| == seg.size
    && Boundary(d.files[seg.id].bytes, seg.size)
  }

  ghost predicate SegmentsMirror(st: Store) {
    forall i :: 0 <= i < |st.mem.segments| ==> Mirrors(st.disk, st.mem.segments[i])
  }

  ghost predicate SegmentsAscend(segments: seq<Segment>) {
    forall i, j :: 0 <= i < j < |segments| ==> segments[i].id < segments[j].id
  }

  ghost predicate SegmentsCover(st: Store, newest: nat) {
    forall id: nat :: Listing(st.disk, id) && id <= newest ==>
      exists i :: 0 <= i < |st.mem.segments| && st.mem.segments[i].id == id
  }

  /** The segment list is the directory, up to one empty file a failed rotation left. */
  ghost predicate SegmentsInv(st: Store, newest: nat) {
    && st.mem.segments != []
    && Last(st.mem).id == newest
    && SegmentsMirror(st)
    && SegmentsAscend(st.mem.segments)
    && SegmentsCover(st, newest)
    && st.mem.total == Sum(st.mem.segments)
  }

  ghost predicate Numbered(m: Memory, log: History) {
    && log.next == log.base + m.appended + 1
    && m.synced <= m.appended
    && (forall n :: log.base < n < log.next ==> n in log.records)
    && (forall n :: n in log.accepted ==> n <= log.base + m.synced)
  }

  ghost predicate SyncedDurable(d: Disk, log: History, upTo: nat) {
    forall n :: n in log.records && n <= upTo ==> DurableOn(d, log.records[n])
  }

  ghost predicate WrittenUpTo(log: History, upTo: nat, p: Position) {
    forall n :: n in log.records && n <= upTo ==> log.records[n].End().UpTo(p)
  }

  ghost predicate CommittedInv(st: Store, log: History) {
    && st.mem.committed.segment == log.newest
    && BoundaryOf(st.disk, st.mem.committed)
    && (st.mem.active ==> WrittenUpTo(log, log.base + st.mem.synced, st.mem.committed))
  }

  ghost predicate ActiveInv(st: Store, newest: nat) {
    && (st.mem.closed ==> !st.mem.active)
    && (st.mem.active ==> newest + 1 !in st.disk.files)
    && (!st.mem.active && !st.mem.closed ==>
          st.mem.synced == st.mem.appended && newest in st.disk.files && Complete(st.disk.files[newest]))
  }

  ghost predicate CheckpointInv(st: Store, log: History) {
    && st.mem.checkpoint.UpTo(st.mem.committed)
    && BoundaryOf(st.disk, st.mem.checkpoint)
    && SettledBelow(log, st.mem.checkpoint)
  }

  ghost predicate CaptureInv(st: Store, log: History, c: Capture) {
    && c.segment <= log.newest
    && c.segment in st.disk.files
    && st.disk.files[c.segment].named
    && Boundary(st.disk.files[c.segment].bytes, c.size)
    && c.target <= st.mem.appended
    && WrittenUpTo(log, log.base + c.target, Position(c.segment, c.size))
  }

  ghost predicate ProcInv(st: Store, log: History) {
    && SegmentsInv(st, log.newest)
    && Numbered(st.mem, log)
    && SyncedDurable(st.disk, log, log.base + st.mem.synced)
    && CommittedInv(st, log)
    && ActiveInv(st, log.newest)
    && CheckpointInv(st, log)
  }

  ghost predicate Good(st: Store, log: History, sync: Option<Capture>) {
    && DiskInv(st.disk, log)
    && ProcInv(st, log)
    && (sync.Some? ==> CaptureInv(st, log, sync.value))
  }

  // What fsyncs have really done.

  ghost predicate Full(f: File) {
    f.durable == |f.bytes|
  }

  /** Every segment but the newest was fsynced in full before the next was started. */
  ghost predicate OlderFull(d: Disk, newest: nat) {
    && (forall id :: id in d.files && id < newest ==> Full(d.files[id]))
    && (newest in d.files && newest + 1 in d.files ==> Full(d.files[newest]))
  }

  ghost predicate FsyncedOn(d: Disk, l: Located) {
    l.segment in d.files && l.End().offset <= d.files[l.segment].durable
  }

  ghost predicate AcceptedFsynced(d: Disk, log: History) {
    forall n :: n in log.accepted ==> FsyncedOn(d, log.accepted[n])
  }

  ghost predicate AdoptedFits(d: Disk, adopted: map<nat, nat>) {
    forall id :: id in adopted ==> id in d.files && adopted[id] <= |d.files[id].bytes|
  }

  ghost predicate FsyncInv(d: Disk, log: History) {
    OlderFull(d, log.newest) && AcceptedFsynced(d, log) && AdoptedFits(d, log.adopted)
  }

  ghost predicate ProcFsynced(st: Store, log: History) {
    && (!st.mem.active && !st.mem.closed ==> log.newest in st.disk.files && Full(st.disk.files[log.newest]))
    && (forall n :: log.base < n <= log.base + st.mem.synced && n in log.records ==> FsyncedOn(st.disk, log.records[n]))
  }

  /**
   The invariant of a run: what a process relies on holds when the files its open
   adopted count as durable, and what it has fsynced really is.
   */
  ghost predicate Inv(s: System) {
    && s.log.next >= 1
    && DiskInv(Trust(s.disk, s.log.adopted), s.log)
    && FsyncInv(s.disk, s.log)
    && (s.proc.None? ==> s.sync.None?)
    && (s.proc.Some? ==>
          var st := Store(s.proc.value, s.disk);
          Good(TrustStore(st, s.log.adopted), s.log, s.sync) && ProcFsynced(st, s.log))
  }

  lemma GoodNewest(st: Store, log: History, sync: Option<Capture>)
    requires Good(st, log, sync)
    ensures st.mem.segments != [] && Last(st.mem).id == log.newest && Rotated(log, st.mem) == log
  {
  }

  // What survives when files only grow.

  ghost predicate Extends(f: File, f1: File) {
    f.bytes <= f1.bytes && f.durable <= f1.durable && (f.named ==> f1.named)
  }

  ghost predicate Grows(d: Disk, d1: Disk) {
    && d1.everSaved == d.everSaved
    && d1.saved == d.saved
    && forall id :: id in d.files ==> id in d1.files && Extends(d.files[id], d1.files[id])
  }

  lemma BoundaryGrows(d: Disk, d1: Disk, p: Position)
    requires Grows(d, d1) && BoundaryOf(d, p)
    ensures BoundaryOf(d1, p)
  {
  }

  lemma OnDiskGrows(d: Disk, d1: Disk, l: Located)
    requires Grows(d, d1) && OnDisk(d, l)
    ensures OnDisk(d1, l)
  {
    var b, b1 := d.files[l.segment].bytes, d1.files[l.segment].bytes;
    assert b1 == b + b1[|b|..];
    IntactInExtension(b, b1[|b|..], l.start, l.data);
  }

  lemma RecordsGrow(d: Disk, d1: Disk, log: History)
    requires Grows(d, d1)
    requires RecordsInPlace(d, log) && AcceptedDurable(d, log) && SavedBoundaries(d)
    ensures RecordsInPlace(d1, log) && AcceptedDurable(d1, log) && SavedBoundaries(d1)
  {
    forall n | n in log.records ensures OnDisk(d1, log.records[n]) {
      OnDiskGrows(d, d1, log.records[n]);
    }
  }

  lemma DurableGrows(d: Disk, d1: Disk, log: History, upTo: nat)
    requires Grows(d, d1) && SyncedDurable(d, log, upTo)
    ensures SyncedDurable(d1, log, upTo)
  {
  }

  ghost predicate SameListing(d: Disk, d1: Disk) {
    forall id: nat :: Listing(d, id) <==> Listing(d1, id)
  }

  // Fsyncs.

  lemma FlushFrames(d: Disk, id: nat, size: nat)
    ensures Grows(d, FlushTo(d, id, size)) && SameListing(d, FlushTo(d, id, size))
    ensures FlushTo(d, id, size).files.Keys == d.files.Keys
    ensures forall x :: x in d.files ==> FlushTo(d, id, size).files[x].bytes == d.files[x].bytes
    ensures forall x :: x in d.files && x != id ==> FlushTo(d, id, size).files[x] == d.files[x]
  {
  }

  lemma FlushKeepsDisk(d: Disk, log: History, id: nat, size: nat)
    requires DiskInv(d, log)
    requires id in d.files ==> size <= |d.files[id].bytes|
    ensures DiskInv(FlushTo(d, id, size), log)
  {
    var d1 := FlushTo(d, id, size);
    FlushFrames(d, id, size);
    RecordsGrow(d, d1, log);
    assert FilesInv(d1, log.newest) by { FlushKeepsFiles(d, log.newest, id, size); }
  }

  lemma FlushKeepsFiles(d: Disk, newest: nat, id: nat, size: nat)
    requires FilesInv(d, newest)
    requires id in d.files ==> size <= |d.files[id].bytes|
    ensures FilesInv(FlushTo(d, id, size), newest)
  {
  }

  lemma FlushKeeps(st: Store, log: History, sync: Option<Capture>, id: nat, size: nat)
    requires Good(st, log, sync)
    requires id in st.disk.files ==> size <= |st.disk.files[id].bytes|
    ensures Good(st.(disk := FlushTo(st.disk, id, size)), log, sync)
  {
    var d, d1 := st.disk, FlushTo(st.disk, id, size);
    FlushKeepsDisk(d, log, id, size);
    FlushFrames(d, id, size);
    DurableGrows(d, d1, log, log.base + st.mem.synced);
    BoundaryGrows(d, d1, st.mem.committed);
    BoundaryGrows(d, d1, st.mem.checkpoint);
    SegmentsSame(st, st.(disk := d1), log.newest);
  }

  lemma SegmentsSame(st: Store, st1: Store, newest: nat)
    requires SegmentsInv(st, newest)
    requires st1.mem.segments == st.mem.segments && st1.mem.total == st.mem.total
    requires SameListing(st.disk, st1.disk) && Grows(st.disk, st1.disk)
    requires forall x :: x in st.disk.files ==> st1.disk.files[x].bytes == st.disk.files[x].bytes
    ensures SegmentsInv(st1, newest)
  {
  }

  // Rotation.

  lemma SumSnoc(segments: seq<Segment>, seg: Segment)
    ensures Sum(segments + [seg]) == Sum(segments) + seg.size
  {
    assert (segments + [seg])[..|segments|] == segments;
  }

  /** A failed rotation may leave the next, empty segment file behind, not yet durably named. */
  lemma OrphanKeeps(st: Store, log: History, sync: Option<Capture>)
    requires Good(st, log, sync)
    requires !st.mem.active && !st.mem.closed
    ensures Good(CreateSegment(st, log.newest + 1, CreatedUnsynced).0, log, sync)
  {
    var d := st.disk;
    var st1 := CreateSegment(st, log.newest + 1, CreatedUnsynced).0;
    assert st1.disk == d.(files := d.files[log.newest + 1 := File([], 0, true, false)]);
    OrphanKeepsDisk(d, st1.disk, log);
    OrphanKeepsProc(st, st1, log);
    if sync.Some? {
      assert CaptureInv(st1, log, sync.value);
    }
  }

  lemma OrphanKeepsDisk(d: Disk, d1: Disk, log: History)
    requires DiskInv(d, log) && log.newest in d.files && Complete(d.files[log.newest])
    requires d1 == d.(files := d.files[log.newest + 1 := File([], 0, true, false)])
    ensures DiskInv(d1, log)
  {
    assert Grows(d, d1);
    RecordsGrow(d, d1, log);
    forall n | n in log.records && !Listing(d1, log.records[n].segment) ensures n in log.settled {
      assert !Listing(d, log.records[n].segment);
    }
  }

  lemma OrphanKeepsProc(st: Store, st1: Store, log: History)
    requires ProcInv(st, log) && !st.mem.active
    requires log.newest + 1 in st.disk.files ==> !st.disk.files[log.newest + 1].named
    requires st1.mem == st.mem
    requires st1.disk == st.disk.(files := st.disk.files[log.newest + 1 := File([], 0, true, false)])
    ensures ProcInv(st1, log)
  {
    forall n | n in log.records && n <= log.base + st.mem.synced ensures DurableOn(st1.disk, log.records[n]) {
      assert DurableOn(st.disk, log.records[n]);
    }
    OrphanKeepsSegments(st, st1, log.newest);
  }

  lemma OrphanKeepsSegments(st: Store, st1: Store, newest: nat)
    requires SegmentsInv(st, newest) && st1.mem == st.mem
    requires newest + 1 in st.disk.files ==> !st.disk.files[newest + 1].named
    requires st1.disk == st.disk.(files := st.disk.files[newest + 1 := File([], 0, true, false)])
    ensures SegmentsInv(st1, newest)
  {
    assert forall id: nat :: id <= newest ==> (Listing(st.disk, id) <==> Listing(st1.disk, id));
    forall i | 0 <= i < |st1.mem.segments| ensures Mirrors(st1.disk, st1.mem.segments[i]) {
      assert Mirrors(st.disk, st.mem.segments[i]);
    }
  }

  ghost function Renamed(log: History, newest: nat): History {
    log.(newest := newest)
  }

  lemma NextSegmentKeeps(st: Store, log: History, sync: Option<Capture>)
    requires Good(st, log, sync)
    requires !st.mem.active && !st.mem.closed
    ensures Good(StartNext(st, Created).0, Renamed(log, log.newest + 1), sync)
  {
    var d, st1 := st.disk, StartNext(st, Created).0;
    assert Mirrors(d, Last(st.mem));
    OnlyTheNewName(d, log.newest);
    NextFileKeepsDisk(d, log);
    NextFileKeepsProc(st, st1, log);
    if sync.Some? {
      assert CaptureInv(st1, Renamed(log, log.newest + 1), sync.value);
    }
  }

  /** Up to the newest segment all names are fsynced already. */
  lemma OnlyTheNewName(d: Disk, newest: nat)
    requires FilesInv(d, newest) && newest > 0
    ensures SyncNames(d.(files := d.files[newest + 1 := Entry(d, newest + 1)]))
            == d.(files := d.files[newest + 1 := File([], 0, true, true)])
  {
    var d1 := d.(files := d.files[newest + 1 := Entry(d, newest + 1)]);
    assert SyncNames(d1).files == d.files[newest + 1 := File([], 0, true, true)];
  }

  lemma NextFileKeepsDisk(d: Disk, log: History)
    requires DiskInv(d, log)
    requires log.newest in d.files && Complete(d.files[log.newest])
    ensures DiskInv(d.(files := d.files[log.newest + 1 := File([], 0, true, true)]), Renamed(log, log.newest + 1))
  {
    var d1 := d.(files := d.files[log.newest + 1 := File([], 0, true, true)]);
    assert Grows(d, d1);
    RecordsGrow(d, d1, log);
    NewFileKeeps(d, d1, log);
  }

  lemma NextFileKeepsProc(st: Store, st1: Store, log: History)
    requires ProcInv(st, log)
    requires RecordsInPlace(st.disk, log) && FilesInv(st.disk, log.newest)
    requires !st.mem.active && !st.mem.closed
    requires st1 == StartNext(st, Created).0
    requires st1.disk == st.disk.(files := st.disk.files[log.newest + 1 := File([], 0, true, true)])
    ensures ProcInv(st1, Renamed(log, log.newest + 1))
  {
    assert Grows(st.disk, st1.disk);
    assert st1.mem.committed == Position(log.newest + 1, 0);
    DurableGrows(st.disk, st1.disk, log, log.base + st.mem.synced);
    BoundaryGrows(st.disk, st1.disk, st.mem.checkpoint);
    NewSegmentKeeps(st, st1, log.newest);
    WrittenBelowNext(st.disk, log);
  }

  lemma NewFileKeeps(d: Disk, d1: Disk, log: History)
    requires FilesInv(d, log.newest) && DeletedSettled(d, log) && RecordsInPlace(d, log)
    requires log.newest in d.files ==> Complete(d.files[log.newest])
    requires d1.files == d.files[log.newest + 1 := File([], 0, true, true)]
    ensures FilesInv(d1, log.newest + 1) && DeletedSettled(d1, Renamed(log, log.newest + 1))
  {
    forall n | n in log.records && !Listing(d1, log.records[n].segment) ensures n in log.settled {
      assert !Listing(d, log.records[n].segment);
    }
  }

  lemma NewSegmentKeeps(st: Store, st1: Store, newest: nat)
    requires SegmentsInv(st, newest)
    requires st1.mem.segments == st.mem.segments + [Segment(newest + 1, 0)] && st1.mem.total == st.mem.total
    requires st1.disk.files == st.disk.files[newest + 1 := File([], 0, true, true)]
    ensures SegmentsInv(st1, newest + 1)
  {
    SumSnoc(st.mem.segments, Segment(newest + 1, 0));
    forall i | 0 <= i < |st1.mem.segments| ensures Mirrors(st1.disk, st1.mem.segments[i]) {
      if i < |st.mem.segments| {
        assert Mirrors(st.disk, st.mem.segments[i]);
        assert i < |st.mem.segments| - 1 ==> st.mem.segments[i].id < Last(st.mem).id;
      }
    }
    forall i, j | 0 <= i < j < |st1.mem.segments| ensures st1.mem.segments[i].id < st1.mem.segments[j].id {
      assert i < |st.mem.segments| - 1 ==> st.mem.segments[i].id < Last(st.mem).id;
    }
    forall id: nat | Listing(st1.disk, id) && id <= newest + 1
      ensures exists i :: 0 <= i < |st1.mem.segments| && st1.mem.segments[i].id == id
    {
      if id == newest + 1 {
        assert st1.mem.segments[|st.mem.segments|].id == id;
      } else {
        assert Listing(st.disk, id);
        var i :| 0 <= i < |st.mem.segments| && st.mem.segments[i].id == id;
        assert st1.mem.segments[i].id == id;
      }
    }
  }

  lemma WrittenBelowNext(d: Disk, log: History)
    requires RecordsInPlace(d, log) && FilesInv(d, log.newest)
    ensures forall n :: n in log.records ==> log.records[n].segment <= log.newest
  {
    forall n | n in log.records ensures log.records[n].segment <= log.newest {
      assert OnDisk(d, log.records[n]);
    }
  }

  lemma StartNextKeeps(st: Store, log: History, sync: Option<Capture>, io: CreateIO)
    requires Good(st, log, sync)
    requires !st.mem.active && !st.mem.closed
    ensures var (st1, ok) := StartNext(st, io);
            && Good(st1, Rotated(log, st1.mem), sync)
            && (ok ==> st1.mem.active)
            && !st1.mem.closed
  {
    hide Good;
    GoodNewest(st, log, sync);
    match io
    case NotCreated =>
      assert Rotated(log, st.mem) == log;
    case CreatedUnsynced =>
      OrphanKeeps(st, log, sync);
      assert Rotated(log, st.mem) == log;
    case Created =>
      NextSegmentKeeps(st, log, sync);
      assert Rotated(log, StartNext(st, Created).0.mem) == Renamed(log, log.newest + 1);
  }

  /** Once the newest segment is flushed, every record in a file is on stable storage. */
  lemma AllDurable(d: Disk, log: History)
    requires RecordsInPlace(d, log) && FilesInv(d, log.newest)
    requires forall id :: id in d.files && id <= log.newest ==> d.files[id].named && d.files[id].durable == |d.files[id].bytes|
    ensures SyncedDurable(d, log, log.next)
  {
    WrittenBelowNext(d, log);
    forall n | n in log.records ensures DurableOn(d, log.records[n]) {
      assert OnDisk(d, log.records[n]);
    }
  }

  /** The part of a rotation that ends the old segment: fsync, close, mark all records synced. */
  lemma EndSegmentKeeps(st: Store, log: History, sync: Option<Capture>)
    requires Good(st, log, sync)
    requires st.mem.active
    ensures Good(Store(st.mem.(active := false, synced := st.mem.appended), Flush(st.disk, log.newest)), log, sync)
  {
    assert Mirrors(st.disk, Last(st.mem));
    FlushKeeps(st, log, sync, log.newest, |st.disk.files[log.newest].bytes|);
    AllDurable(Flush(st.disk, log.newest), log);
  }

  lemma RotateKeeps(st: Store, log: History, sync: Option<Capture>, io: RotateIO)
    requires Good(st, log, sync)
    requires !st.mem.closed
    ensures var (st1, ok) := Rotate(st, io);
            && Good(st1, Rotated(log, st1.mem), sync)
            && (ok ==> st1.mem.active)
            && !st1.mem.closed
  {
    hide StartNext;
    if !st.mem.active {
      StartNextKeeps(st, log, sync, io.create);
    } else if !io.syncs {
      assert Rotated(log, st.mem) == log;
    } else if !io.closes {
      assert Mirrors(st.disk, Last(st.mem));
      FlushKeeps(st, log, sync, log.newest, |st.disk.files[log.newest].bytes|);
      assert Rotated(log, st.mem) == log;
    } else {
      EndSegmentKeeps(st, log, sync);
      StartNextKeeps(Store(st.mem.(active := false, synced := st.mem.appended), Flush(st.disk, log.newest)),
                     log, sync, io.create);
    }
  }

  // Deleting delivered segments.

  lemma {:induction false} SumSplit(segments: seq<Segment>, n: nat)
    requires n <= |segments|
    ensures Sum(segments) == Sum(segments[..n]) + Sum(segments[n..])
  {
    if n == |segments| {
      assert segments[..n] == segments;
    } else {
      var front := segments[..|segments| - 1];
      SumSplit(front, n);
      assert front[..n] == segments[..n];
      assert segments[n..] == front[n..] + [segments[|segments| - 1]];
      SumSnoc(front[n..], segments[|segments| - 1]);
    }
  }

  lemma UnlinkGrows(d: Disk, ids: set<nat>)
    ensures Grows(d, Unlink(d, ids))
    ensures Unlink(d, ids).files.Keys == d.files.Keys
    ensures forall id: nat :: Listing(Unlink(d, ids), id) <==> Listing(d, id) && id !in ids
  {
  }

  lemma RemovedSettled(st: Store, d1: Disk, log: History, n: nat)
    requires RecordsInPlace(st.disk, log) && DeletedSettled(st.disk, log) && SegmentsMirror(st)
    requires n <= |st.mem.segments| && SettledBelow(log, st.mem.checkpoint)
    requires forall i :: 0 <= i < n ==> st.mem.segments[i].End().UpTo(st.mem.checkpoint)
    requires d1 == Unlink(st.disk, Ids(st.mem.segments[..n]))
    ensures DeletedSettled(d1, log)
  {
    UnlinkGrows(st.disk, Ids(st.mem.segments[..n]));
    forall k | k in log.records && !Listing(d1, log.records[k].segment) ensures k in log.settled {
      var l := log.records[k];
      if Listing(st.disk, l.segment) {
        var i :| 0 <= i < n && st.mem.segments[..n][i].id == l.segment;
        assert Mirrors(st.disk, st.mem.segments[i]) && OnDisk(st.disk, l);
        assert l.End().UpTo(st.mem.segments[i].End());
        assert l.End().UpTo(st.mem.checkpoint);
      }
    }
  }

  lemma RemoveKeepsFiles(d: Disk, newest: nat, ids: set<nat>)
    requires FilesInv(d, newest) && forall id :: id in ids ==> id < newest
    ensures FilesInv(Unlink(d, ids), newest)
  {
  }

  lemma RemoveKeepsDisk(st: Store, log: History, n: nat)
    requires DiskInv(st.disk, log) && SegmentsInv(st, log.newest) && SettledBelow(log, st.mem.checkpoint)
    requires n <= Delivered(st.mem.segments, st.mem.checkpoint)
    ensures DiskInv(Unlink(st.disk, Ids(st.mem.segments[..n])), log)
  {
    hide RecordsInPlace, AcceptedDurable, SavedBoundaries, DeletedSettled, FilesInv, SegmentsMirror, SegmentsCover;
    var d, ids := st.disk, Ids(st.mem.segments[..n]);
    var d1 := Unlink(d, ids);
    UnlinkGrows(d, ids);
    RecordsGrow(d, d1, log);
    DeliveredCounts(st.mem.segments, st.mem.checkpoint);
    RemovedSettled(st, d1, log, n);
    forall id | id in ids ensures id < log.newest {
      var i :| 0 <= i < n && st.mem.segments[..n][i].id == id;
      assert st.mem.segments[i].id < Last(st.mem).id;
    }
    RemoveKeepsFiles(d, log.newest, ids);
  }

  lemma PrefixIds(segments: seq<Segment>, n: nat, i: nat)
    requires SegmentsAscend(segments) && n <= |segments| && i < |segments|
    ensures segments[i].id in Ids(segments[..n]) <==> i < n
  {
    if i < n {
      assert segments[..n][i].id == segments[i].id;
    } else {
      forall j | 0 <= j < n ensures segments[..n][j].id != segments[i].id {
        assert segments[j].id < segments[i].id;
      }
    }
  }

  lemma RemainderMirrors(st: Store, d1: Disk, n: nat)
    requires SegmentsMirror(st) && SegmentsAscend(st.mem.segments) && n <= |st.mem.segments|
    requires d1 == Unlink(st.disk, Ids(st.mem.segments[..n]))
    ensures forall i :: n <= i < |st.mem.segments| ==> Mirrors(d1, st.mem.segments[i])
  {
    UnlinkGrows(st.disk, Ids(st.mem.segments[..n]));
    forall i | n <= i < |st.mem.segments| ensures Mirrors(d1, st.mem.segments[i]) {
      assert Mirrors(st.disk, st.mem.segments[i]);
      PrefixIds(st.mem.segments, n, i);
    }
  }

  lemma RemainderCovers(st: Store, d1: Disk, newest: nat, n: nat)
    requires SegmentsCover(st, newest) && SegmentsAscend(st.mem.segments) && n <= |st.mem.segments|
    requires d1 == Unlink(st.disk, Ids(st.mem.segments[..n]))
    ensures forall id: nat :: Listing(d1, id) && id <= newest ==>
              exists i :: n <= i < |st.mem.segments| && st.mem.segments[i].id == id
  {
    UnlinkGrows(st.disk, Ids(st.mem.segments[..n]));
    forall id: nat | Listing(d1, id) && id <= newest
      ensures exists i :: n <= i < |st.mem.segments| && st.mem.segments[i].id == id
    {
      var i :| 0 <= i < |st.mem.segments| && st.mem.segments[i].id == id;
      PrefixIds(st.mem.segments, n, i);
    }
  }

  lemma RemoveKeepsCover(st: Store, st1: Store, newest: nat, n: nat)
    requires SegmentsCover(st, newest) && SegmentsAscend(st.mem.segments) && n < |st.mem.segments|
    requires st1.mem.segments == st.mem.segments[n..]
    requires st1.disk == Unlink(st.disk, Ids(st.mem.segments[..n]))
    ensures SegmentsCover(st1, newest)
  {
    RemainderCovers(st, st1.disk, newest, n);
    forall id: nat | Listing(st1.disk, id) && id <= newest
      ensures exists i :: 0 <= i < |st1.mem.segments| && st1.mem.segments[i].id == id
    {
      var i :| n <= i < |st.mem.segments| && st.mem.segments[i].id == id;
      assert st1.mem.segments[i - n].id == id;
    }
  }

  lemma RemoveKeepsSegments(st: Store, st1: Store, newest: nat, n: nat)
    requires SegmentsInv(st, newest)
    requires n < |st.mem.segments|
    requires st1.mem.segments == st.mem.segments[n..] && st1.mem.total == st.mem.total - Sum(st.mem.segments[..n])
    requires st1.disk == Unlink(st.disk, Ids(st.mem.segments[..n]))
    ensures SegmentsInv(st1, newest)
  {
    SumSplit(st.mem.segments, n);
    RemainderMirrors(st, st1.disk, n);
    RemoveKeepsCover(st, st1, newest, n);
  }

  lemma RemoveKeeps(st: Store, log: History, sync: Option<Capture>, removals: nat)
    requires Good(st, log, sync)
    ensures Good(RemoveDelivered(st, removals).0, log, sync)
  {
    var all := Delivered(st.mem.segments, st.mem.checkpoint);
    var n := if all <= removals then all else removals;
    var st1 := RemoveDelivered(st, removals).0;
    RemoveKeepsDisk(st, log, n);
    RemoveKeepsSegments(st, st1, log.newest, n);
    UnlinkGrows(st.disk, Ids(st.mem.segments[..n]));
    ProcGrows(st, st1, log);
    if sync.Some? {
      assert CaptureInv(st1, log, sync.value);
    }
  }

  /** Positions and counts carry over when files grow and only the segment list changes. */
  lemma ProcGrows(st: Store, st1: Store, log: History)
    requires ProcInv(st, log)
    requires Grows(st.disk, st1.disk)
    requires st1.disk.files.Keys == st.disk.files.Keys
    requires st1.mem == st.mem.(segments := st1.mem.segments, total := st1.mem.total)
    requires SegmentsInv(st1, log.newest)
    requires log.newest in st.disk.files ==> st1.disk.files[log.newest] == st.disk.files[log.newest]
    ensures ProcInv(st1, log)
  {
    DurableGrows(st.disk, st1.disk, log, log.base + st.mem.synced);
    BoundaryGrows(st.disk, st1.disk, st.mem.committed);
    BoundaryGrows(st.disk, st1.disk, st.mem.checkpoint);
  }

  // Appending.

  lemma ReclaimKeeps(st: Store, log: History, sync: Option<Capture>, io: AppendIO)
    requires Good(st, log, sync) && !st.mem.closed
    ensures var (st1, ok) := Reclaim(st, io); Good(st1, Rotated(log, st1.mem), sync) && !st1.mem.closed
  {
    hide Good, Rotate;
    GoodNewest(st, log, sync);
    var last := Last(st.mem);
    if last.size > 0 && st.mem.checkpoint == last.End() {
      RotateKeeps(st, log, sync, io.reclaim);
      var (st1, ok) := Rotate(st, io.reclaim);
      if ok {
        RemoveKeeps(st1, Rotated(log, st1.mem), sync, io.removals);
        assert Rotated(log, RemoveDelivered(st1, io.removals).0.mem) == Rotated(log, st1.mem);
      }
    } else {
      RemoveKeeps(st, log, sync, io.removals);
      assert Rotated(log, RemoveDelivered(st, io.removals).0.mem) == log;
    }
  }

  lemma EnsureCapacityKeeps(st: Store, log: History, sync: Option<Capture>, size: nat, io: AppendIO)
    requires Good(st, log, sync) && !st.mem.closed
    ensures var (st1, r) := EnsureCapacity(st, size, io); Good(st1, Rotated(log, st1.mem), sync) && !st1.mem.closed
  {
    hide Good, Reclaim;
    GoodNewest(st, log, sync);
    if size <= st.mem.maxBytes && size > st.mem.maxBytes - st.mem.total {
      ReclaimKeeps(st, log, sync, io);
    } else {
      assert Rotated(log, st.mem) == log;
    }
    var (st1, ok) :=
      if size <= st.mem.maxBytes && size > st.mem.maxBytes - st.mem.total then Reclaim(st, io) else (st, true);
    FlagKeeps(st1, Rotated(log, st1.mem), sync, true);
    FlagKeeps(st1, Rotated(log, st1.mem), sync, false);
  }

  lemma FlagKeeps(st: Store, log: History, sync: Option<Capture>, full: bool)
    requires Good(st, log, sync)
    ensures Good(st.(mem := st.mem.(full := full)), log, sync)
  {
  }

  /** Everything written so far ends at or before the end of the newest segment. */
  lemma AllBelowEnd(d: Disk, log: History)
    requires RecordsInPlace(d, log) && FilesInv(d, log.newest) && log.newest in d.files
    ensures forall n :: n in log.records ==>
              log.records[n].End().UpTo(Position(log.newest, |d.files[log.newest].bytes|))
  {
    WrittenBelowNext(d, log);
    forall n | n in log.records
      ensures log.records[n].End().UpTo(Position(log.newest, |d.files[log.newest].bytes|))
    {
      assert OnDisk(d, log.records[n]);
    }
  }

  lemma BoundaryBelowEnd(d: Disk, newest: nat, p: Position)
    requires FilesInv(d, newest) && newest in d.files && BoundaryOf(d, p)
    ensures p.UpTo(Position(newest, |d.files[newest].bytes|))
  {
  }

  ghost function WithRecord(log: History, l: Located): History {
    log.(records := log.records[log.next := l], next := log.next + 1)
  }

  lemma NewRecordUnsettled(d: Disk, log: History, l: Located, p: Position)
    requires FilesInv(d, log.newest) && log.newest in d.files && BoundaryOf(d, p)
    requires SettledBelow(log, p)
    requires l.segment == log.newest && l.start == |d.files[log.newest].bytes|
    ensures SettledBelow(WithRecord(log, l), p)
  {
    BoundaryBelowEnd(d, log.newest, p);
    assert !l.End().UpTo(p);
  }

  lemma WriteKeepsRecords(d: Disk, d1: Disk, log: History, l: Located)
    requires RecordsInPlace(d, log) && RecordsOrdered(log) && FilesInv(d, log.newest) && log.newest in d.files
    requires log.next >= 1 && NoNewline(l.data)
    requires l.segment == log.newest && l.start == |d.files[log.newest].bytes|
    requires Boundary(d.files[log.newest].bytes, l.start)
    requires d1 == AppendBytes(d, log.newest, l.data + [NEWLINE])
    ensures RecordsInPlace(d1, WithRecord(log, l)) && RecordsOrdered(WithRecord(log, l))
  {
    assert Grows(d, d1);
    AllBelowEnd(d, log);
    forall n | n in log.records ensures OnDisk(d1, log.records[n]) {
      OnDiskGrows(d, d1, log.records[n]);
    }
    AppendedIsIntact(d.files[log.newest].bytes, l.data);
  }

  lemma WriteKeepsFiles(d: Disk, d1: Disk, newest: nat, line: Bytes)
    requires FilesInv(d, newest) && newest in d.files && newest > 0 && newest + 1 !in d.files
    requires d1 == AppendBytes(d, newest, line)
    ensures FilesInv(d1, newest) && Grows(d, d1) && SameListing(d, d1)
  {
  }

  lemma WriteKeepsDeleted(d: Disk, d1: Disk, log: History, l: Located)
    requires DeletedSettled(d, log) && SameListing(d, d1) && Listing(d, l.segment)
    ensures DeletedSettled(d1, WithRecord(log, l))
  {
  }

  lemma WriteKeepsAccepted(d: Disk, log: History, l: Located)
    requires RecordsInPlace(d, log) && AcceptedKept(log)
    ensures AcceptedKept(WithRecord(log, l))
  {
  }

  lemma WriteKeepsDisk(d: Disk, d1: Disk, log: History, l: Located)
    requires DiskInv(d, log) && log.newest in d.files && log.newest > 0 && log.newest + 1 !in d.files
    requires log.next >= 1 && NoNewline(l.data)
    requires l.segment == log.newest && l.start == |d.files[log.newest].bytes|
    requires Boundary(d.files[log.newest].bytes, l.start)
    requires d1 == AppendBytes(d, log.newest, l.data + [NEWLINE])
    ensures DiskInv(d1, WithRecord(log, l))
  {
    assert Listing(d, log.newest) && d1.everSaved == d.everSaved;
    hide FilesInv, RecordsInPlace, RecordsOrdered, DeletedSettled, AppendBytes, Grows, SameListing, SettledBelow, BoundaryOf;
    WriteKeepsFiles(d, d1, log.newest, l.data + [NEWLINE]);
    WriteKeepsRecords(d, d1, log, l);
    RecordsGrow(d, d1, log);
    WriteKeepsDeleted(d, d1, log, l);
    WriteKeepsAccepted(d, log, l);
    forall p | p in d1.everSaved ensures SettledBelow(WithRecord(log, l), p) {
      NewRecordUnsettled(d, log, l, p);
    }
  }

  lemma SumGrow(segments: seq<Segment>, extra: nat)
    requires segments != []
    ensures var last := segments[|segments| - 1];
            Sum(segments[|segments| - 1 := Segment(last.id, last.size + extra)]) == Sum(segments) + extra
  {
    var k := |segments| - 1;
    assert segments[k := Segment(segments[k].id, segments[k].size + extra)][..k] == segments[..k];
  }

  lemma WriteKeepsMirrors(st: Store, st1: Store, newest: nat, line: Bytes)
    requires st.mem.segments != [] && SegmentsMirror(st) && SegmentsAscend(st.mem.segments) && Last(st.mem).id == newest
    requires line != [] && line[|line| - 1] == NEWLINE
    requires st1.mem.segments == st.mem.segments[|st.mem.segments| - 1 := Segment(newest, Last(st.mem).size + |line|)]
    requires st1.disk == AppendBytes(st.disk, newest, line)
    ensures SegmentsMirror(st1) && SegmentsAscend(st1.mem.segments)
  {
    var k := |st.mem.segments| - 1;
    assert Mirrors(st.disk, Last(st.mem));
    forall i | 0 <= i < |st1.mem.segments| ensures Mirrors(st1.disk, st1.mem.segments[i]) {
      assert Mirrors(st.disk, st.mem.segments[i]);
      assert i < k ==> st.mem.segments[i].id < st.mem.segments[k].id;
    }
  }

  lemma WriteKeepsCover(st: Store, st1: Store, newest: nat)
    requires st.mem.segments != [] && SegmentsCover(st, newest)
    requires |st1.mem.segments| == |st.mem.segments|
    requires forall i :: 0 <= i < |st.mem.segments| ==> st1.mem.segments[i].id == st.mem.segments[i].id
    requires SameListing(st.disk, st1.disk)
    ensures SegmentsCover(st1, newest)
  {
    forall id: nat | Listing(st1.disk, id) && id <= newest
      ensures exists i :: 0 <= i < |st1.mem.segments| && st1.mem.segments[i].id == id
    {
      assert Listing(st.disk, id);
      var i :| 0 <= i < |st.mem.segments| && st.mem.segments[i].id == id;
      assert st1.mem.segments[i].id == id;
    }
  }

  lemma WriteKeepsSegments(st: Store, st1: Store, newest: nat, line: Bytes)
    requires SegmentsInv(st, newest)
    requires line != [] && line[|line| - 1] == NEWLINE
    requires st1.mem.segments == st.mem.segments[|st.mem.segments| - 1 := Segment(newest, Last(st.mem).size + |line|)]
    requires st1.mem.total == st.mem.total + |line|
    requires st1.disk == AppendBytes(st.disk, newest, line)
    ensures SegmentsInv(st1, newest)
  {
    SumGrow(st.mem.segments, |line|);
    WriteKeepsMirrors(st, st1, newest, line);
    WriteKeepsCover(st, st1, newest);
  }

  lemma WriteKeepsProc(st: Store, st1: Store, log: History, l: Located)
    requires ProcInv(st, log) && FilesInv(st.disk, log.newest)
    requires st.mem.active && log.newest in st.disk.files
    requires l.segment == log.newest && l.start == |st.disk.files[log.newest].bytes|
    requires st1.disk == AppendBytes(st.disk, log.newest, l.data + [NEWLINE])
    requires st1.mem == st.mem.(segments := st1.mem.segments, total := st1.mem.total, appended := st.mem.appended + 1)
    requires SegmentsInv(st1, log.newest)
    ensures ProcInv(st1, WithRecord(log, l))
  {
    assert Grows(st.disk, st1.disk);
    DurableGrows(st.disk, st1.disk, log, log.base + st.mem.synced);
    BoundaryGrows(st.disk, st1.disk, st.mem.committed);
    BoundaryGrows(st.disk, st1.disk, st.mem.checkpoint);
    NewRecordUnsettled(st.disk, log, l, st.mem.checkpoint);
  }

  lemma WriteLineKeeps(st: Store, log: History, sync: Option<Capture>, record: Bytes)
    requires Good(st, log, sync) && log.next >= 1 && st.mem.active && NoNewline(record)
    ensures var st1 := WriteLine(st, record + [NEWLINE], true).0;
            Good(st1, Written(log, st1.mem, record), sync)
  {
    var st1 := WriteLine(st, record + [NEWLINE], true).0;
    assert Mirrors(st.disk, Last(st.mem));
    var l := Located(log.newest, Last(st.mem).size, record);
    assert Written(log, st1.mem, record) == WithRecord(log, l);
    WriteKeepsDisk(st.disk, st1.disk, log, l);
    WriteKeepsSegments(st, st1, log.newest, record + [NEWLINE]);
    WriteKeepsProc(st, st1, log, l);
    if sync.Some? {
      assert Grows(st.disk, st1.disk);
      assert CaptureInv(st1, WithRecord(log, l), sync.value);
    }
  }

  lemma AppendKeeps(st: Store, log: History, sync: Option<Capture>, record: Bytes, io: AppendIO)
    requires Good(st, log, sync) && log.next >= 1 && NoNewline(record)
    ensures var (st1, r) := AppendLocked(st, record + [NEWLINE], io);
            Good(st1, Rotated(if r.Ok? then Written(log, st1.mem, record) else log, st1.mem), sync)
  {
    hide Good, Rotate, EnsureCapacity, WriteLine;
    GoodNewest(st, log, sync);
    var line := record + [NEWLINE];
    if st.mem.closed {
      assert Rotated(log, st.mem) == log;
    } else {
      EnsureCapacityKeeps(st, log, sync, |line|, io);
      var (st1, room) := EnsureCapacity(st, |line|, io);
      if room.Ok? {
        if NeedsRotation(st1.mem, |line|) {
          RotateKeeps(st1, Rotated(log, st1.mem), sync, io.rotate);
          var (st2, ok) := Rotate(st1, io.rotate);
          if ok {
            WrittenAfterRotation(st2, log, sync, record, io.writes);
          }
        } else {
          WrittenAfterRotation(st1, log, sync, record, io.writes);
        }
      }
    }
  }

  lemma WrittenAfterRotation(st: Store, log: History, sync: Option<Capture>, record: Bytes, writes: bool)
    requires st.mem.segments != []
    requires Good(st, Rotated(log, st.mem), sync) && log.next >= 1 && st.mem.active && NoNewline(record)
    ensures var (st1, r) := WriteLine(st, record + [NEWLINE], writes);
            Good(st1, Rotated(if r.Ok? then Written(log, st1.mem, record) else log, st1.mem), sync)
  {
    hide Good;
    if writes {
      WriteLineKeeps(st, Rotated(log, st.mem), sync, record);
      RotatedWritten(st, log, record);
    }
  }

  lemma RotatedWritten(st: Store, log: History, record: Bytes)
    requires st.mem.segments != []
    ensures var st1 := WriteLine(st, record + [NEWLINE], true).0;
            Rotated(Written(log, st1.mem, record), st1.mem) == Written(Rotated(log, st.mem), st1.mem, record)
  {
  }

  // The three phases of a shared fsync.

  lemma BeginSyncKeeps(st: Store, log: History)
    requires Good(st, log, None)
    ensures Good(st, log, Some(StartSync(st.mem)))
  {
    assert Mirrors(st.disk, Last(st.mem));
    AllBelowEnd(st.disk, log);
  }

  lemma CapturedDurable(d: Disk, log: History, c: Capture)
    requires RecordsInPlace(d, log) && FilesInv(d, log.newest)
    requires c.segment <= log.newest && c.segment in d.files && d.files[c.segment].named
    requires c.size <= d.files[c.segment].durable
    requires WrittenUpTo(log, log.base + c.target, Position(c.segment, c.size))
    ensures SyncedDurable(d, log, log.base + c.target)
  {
    forall n | n in log.records && n <= log.base + c.target ensures DurableOn(d, log.records[n]) {
      assert OnDisk(d, log.records[n]);
    }
  }

  lemma EndSyncKeeps(st: Store, log: History, c: Capture, ok: bool)
    requires Good(st, log, Some(c))
    ensures Good(FinishSync(st, c, ok), log, None)
  {
    if ok {
      var d1 := FlushTo(st.disk, c.segment, c.size);
      FlushKeeps(st, log, Some(c), c.segment, c.size);
      CapturedDurable(d1, log, c);
      PublishKeeps(st.(disk := d1), log, c);
    }
  }

  lemma PublishKeeps(st: Store, log: History, c: Capture)
    requires Good(st, log, Some(c))
    requires SyncedDurable(st.disk, log, log.base + c.target)
    requires c.size <= st.disk.files[c.segment].durable
    ensures var m := if c.target > st.mem.synced then st.mem.(synced := c.target) else st.mem;
            Good(Store(AdvanceCommitted(m, Position(c.segment, c.size)), st.disk), log, None)
  {
    hide DiskInv, SegmentsInv;
    var m := if c.target > st.mem.synced then st.mem.(synced := c.target) else st.mem;
    var m1 := AdvanceCommitted(m, Position(c.segment, c.size));
    SegmentsUnsaved(st, Store(m1, st.disk), log.newest);
    assert CommittedInv(Store(m1, st.disk), log);
  }

  // Accepting a record.

  lemma AcceptKeepsDisk(d: Disk, log: History, n: nat)
    requires DiskInv(d, log) && n in log.records && DurableOn(d, log.records[n])
    ensures DiskInv(d, Accepted(log, n))
  {
    forall k | k in Accepted(log, n).accepted ensures DurableOn(d, Accepted(log, n).accepted[k]) {
      assert k != n ==> DurableOn(d, log.accepted[k]);
    }
  }

  lemma AcceptKeepsProc(st: Store, log: History, log1: History)
    requires ProcInv(st, log) && log1 == log.(accepted := log1.accepted)
    requires forall n :: n in log1.accepted ==> n <= log.base + st.mem.synced
    ensures ProcInv(st, log1)
  {
  }

  lemma SyncedRecord(st: Store, log: History, g: nat)
    requires ProcInv(st, log) && 1 <= g <= st.mem.synced
    ensures log.base + g in log.records && DurableOn(st.disk, log.records[log.base + g])
    ensures forall n :: n in log.accepted ==> n <= log.base + st.mem.synced
  {
  }

  lemma AcceptKeeps(st: Store, log: History, sync: Option<Capture>, g: nat)
    requires Good(st, log, sync) && 1 <= g <= st.mem.synced
    ensures Good(st, Accepted(log, log.base + g), sync)
    ensures log.base + g in Accepted(log, log.base + g).accepted
  {
    hide DiskInv, ProcInv;
    SyncedRecord(st, log, g);
    AcceptKeepsDisk(st.disk, log, log.base + g);
    AcceptKeepsProc(st, log, Accepted(log, log.base + g));
  }

  // Acknowledging.

  lemma ValidIsBoundary(st: Store, log: History, sync: Option<Capture>, p: Position)
    requires Good(st, log, sync) && ValidCheckpoint(st, p)
    ensures BoundaryOf(st.disk, p) && p.UpTo(st.mem.committed)
  {
    var i :| 0 <= i < |st.mem.segments| && st.mem.segments[i].id == p.segment;
    assert Mirrors(st.disk, st.mem.segments[i]);
  }

  lemma SettleKeeps(st: Store, log: History, sync: Option<Capture>, p: Position)
    requires Good(st, log, sync) && BoundaryOf(st.disk, p)
    ensures Good(st.(disk := SaveCheckpoint(st.disk, p)), Settled(log, p), sync)
    ensures SettledBelow(Settled(log, p), p)
  {
    var d1, log1 := SaveCheckpoint(st.disk, p), Settled(log, p);
    SaveKeepsDisk(st.disk, log, p);
    SegmentsUnsaved(st, st.(disk := d1), log.newest);
    forall n | n in log.records && n <= log.base + st.mem.synced ensures DurableOn(d1, log1.records[n]) {
      assert DurableOn(st.disk, log.records[n]);
    }
  }

  lemma SegmentsUnsaved(st: Store, st1: Store, newest: nat)
    requires SegmentsInv(st, newest) && st1.disk.files == st.disk.files
    requires st1.mem.segments == st.mem.segments && st1.mem.total == st.mem.total
    ensures SegmentsInv(st1, newest)
  {
    assert forall id: nat :: Listing(st.disk, id) <==> Listing(st1.disk, id);
    forall i | 0 <= i < |st1.mem.segments| ensures Mirrors(st1.disk, st1.mem.segments[i]) {
      assert Mirrors(st.disk, st.mem.segments[i]);
    }
  }

  lemma SaveKeepsDisk(d: Disk, log: History, p: Position)
    requires DiskInv(d, log) && BoundaryOf(d, p)
    ensures DiskInv(SaveCheckpoint(d, p), Settled(log, p))
  {
    var d1, log1 := SaveCheckpoint(d, p), Settled(log, p);
    forall n | n in log.records ensures OnDisk(d1, log1.records[n]) {
      assert OnDisk(d, log.records[n]);
    }
    forall n | n in log.records && !Listing(d1, log.records[n].segment) ensures n in log1.settled {
      assert !Listing(d, log.records[n].segment);
    }
    forall q | q in d1.everSaved ensures BoundaryOf(d1, q) && SettledBelow(log1, q) {
      assert q != p ==> q in d.everSaved && BoundaryOf(d, q) && SettledBelow(log, q);
    }
    forall n | n in log.accepted ensures DurableOn(d1, log.accepted[n]) {
      assert DurableOn(d, log.accepted[n]);
    }
  }

  lemma MoveCheckpointKeeps(st: Store, log: History, sync: Option<Capture>, p: Position)
    requires Good(st, log, sync) && BoundaryOf(st.disk, p) && p.UpTo(st.mem.committed) && SettledBelow(log, p)
    ensures Good(st.(mem := st.mem.(checkpoint := p)), log, sync)
  {
  }

  ghost function AckLog(st: Store, log: History, p: Position, io: AckIO): History {
    if Acknowledge(st, p, io).0.disk.everSaved != st.disk.everSaved then Settled(log, p) else log
  }

  lemma AckSaveKeeps(st: Store, log: History, sync: Option<Capture>, p: Position)
    requires Good(st, log, sync) && BoundaryOf(st.disk, p)
    ensures var log1 := if p in st.disk.everSaved then log else Settled(log, p);
            Good(st.(disk := SaveCheckpoint(st.disk, p)), log1, sync) && SettledBelow(log1, p)
  {
    if p in st.disk.everSaved {
      ResaveKeeps(st, log, sync, p);
    } else {
      SettleKeeps(st, log, sync, p);
    }
  }

  lemma AckLogIs(st: Store, log: History, p: Position, io: AckIO)
    requires !st.mem.closed && st.mem.checkpoint.Before(p) && CheckpointAccepted(st, p, io.boundaryRead)
    requires !io.save.SaveFailed?
    ensures AckLog(st, log, p, io) == if p in st.disk.everSaved then log else Settled(log, p)
  {
    assert SaveCheckpoint(st.disk, p).everSaved == st.disk.everSaved <==> p in st.disk.everSaved;
  }

  lemma AckAdvances(st: Store, log: History, sync: Option<Capture>, p: Position, io: AckIO)
    requires Good(st, log, sync)
    requires !st.mem.closed && st.mem.checkpoint.Before(p) && CheckpointAccepted(st, p, io.boundaryRead)
    requires !io.save.SaveFailed?
    ensures Good(Acknowledge(st, p, io).0, AckLog(st, log, p, io), sync)
  {
    hide Good, RemoveDelivered;
    AckLogIs(st, log, p, io);
    ValidIsBoundary(st, log, sync, p);
    AckSaveKeeps(st, log, sync, p);
    var log1 := if p in st.disk.everSaved then log else Settled(log, p);
    var st1 := st.(disk := SaveCheckpoint(st.disk, p));
    if io.save.SaveDone? {
      MoveCheckpointKeeps(st1, log1, sync, p);
      RemoveKeeps(st1.(mem := st1.mem.(checkpoint := p)), log1, sync, io.removals);
    }
  }

  lemma AckKeeps(st: Store, log: History, sync: Option<Capture>, p: Position, io: AckIO)
    requires Good(st, log, sync)
    ensures Good(Acknowledge(st, p, io).0, AckLog(st, log, p, io), sync)
  {
    hide Good, RemoveDelivered;
    if st.mem.closed {
    } else if p == st.mem.checkpoint {
      RemoveKeeps(st, log, sync, io.removals);
    } else if p.Before(st.mem.checkpoint) || !CheckpointAccepted(st, p, io.boundaryRead) || io.save.SaveFailed? {
    } else {
      AckAdvances(st, log, sync, p, io);
    }
  }

  lemma ResaveKeeps(st: Store, log: History, sync: Option<Capture>, p: Position)
    requires Good(st, log, sync) && p in st.disk.everSaved
    ensures Good(st.(disk := SaveCheckpoint(st.disk, p)), log, sync) && SettledBelow(log, p)
  {
    SettleKeeps(st, log, sync, p);
    assert Settled(log, p).settled == log.settled;
    assert Settled(log, p) == log;
  }
}
