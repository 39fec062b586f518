/**
 The delivery spool as values: the directory of segment files, the in-memory
 fields, and one function for each section the code runs under its mutex.
 Every storage call takes its outcome from an `IO` argument, so a function
 covers all the ways its section can succeed or fail.
 */
module SpoolModel {
  import opened Framing

  /** Size at which a new segment is started, before a small limit lowers it. */
  const SEGMENT_SIZE: nat := 64 * 1024 * 1024

  datatype Position = Position(segment: nat, offset: nat) {
    predicate Before(q: Position) {
      segment < q.segment || (segment == q.segment && offset < q.offset)
    }

    predicate UpTo(q: Position) {
      !q.Before(this)
    }
  }

  datatype Segment = Segment(id: nat, size: nat) {
    function End(): Position {
      Position(id, size)
    }
  }

  datatype SpoolRecord = SpoolRecord(data: Bytes, end: Position)

  /**
   One segment file. `durable` bytes are known to be on stable storage; `linked`
   says the directory lists the file, `named` that this listing is on stable
   storage. An unlinked file is kept: a power cut may bring its name back.
   */
  datatype File = File(bytes: Bytes, durable: nat, linked: bool, named: bool)

  datatype Saved = NoCheckpoint | Unreadable | Saved(at: Position)

  /** `everSaved` are the checkpoints ever written; none is fsynced, any may come back. */
  datatype Disk = Disk(files: map<nat, File>, saved: Saved, everSaved: set<Position>)

  /** The spool's fields; `active` says the last segment is open for appending. */
  datatype Memory = Memory(
    maxBytes: nat,
    segmentSize: nat,
    segments: seq<Segment>,
    active: bool,
    total: int,
    appended: nat,
    synced: nat,
    committed: Position,
    checkpoint: Position,
    full: bool,
    closed: bool)

  datatype Store = Store(mem: Memory, disk: Disk)

  datatype Error = SpoolFull | SpoolClosed | StorageFailed | MovesBackwards | InvalidPosition

  datatype Result<+T> = Ok(value: T) | Err(error: Error)

  // Outcomes of storage calls.

  datatype CreateIO = Created | NotCreated | CreatedUnsynced

  datatype RotateIO = RotateIO(syncs: bool, closes: bool, create: CreateIO)

  datatype AppendIO = AppendIO(reclaim: RotateIO, removals: nat, rotate: RotateIO, writes: bool)

  datatype SaveIO = SaveDone | SaveFailed | SaveFailedButApplied

  datatype AckIO = AckIO(boundaryRead: bool, save: SaveIO, removals: nat)

  datatype OpenIO = OpenIO(boundaryRead: bool, removals: nat)

  const ALL_GOOD := RotateIO(true, true, Created)

  // Segment lists.

  function Sum(segments: seq<Segment>): nat {
    if segments == [] then 0 else Sum(segments[..|segments| - 1]) + segments[|segments| - 1].size
  }

  function Last(m: Memory): Segment
    requires m.segments != []
  {
    m.segments[|m.segments| - 1]
  }

  /** How many leading segments, never the last, lie wholly before `checkpoint`. */
  function Delivered(segments: seq<Segment>, checkpoint: Position): (n: nat)
    ensures segments != [] ==> n < |segments|
    ensures segments == [] ==> n == 0
  {
    if |segments| <= 1 || checkpoint.Before(segments[0].End()) then 0
    else 1 + Delivered(segments[1..], checkpoint)
  }

  /** It counts exactly the leading segments that end at or before the checkpoint. */
  lemma {:induction false} DeliveredCounts(segments: seq<Segment>, checkpoint: Position)
    ensures var n := Delivered(segments, checkpoint);
            && (forall i :: 0 <= i < n ==> segments[i].End().UpTo(checkpoint))
            && (n + 1 < |segments| ==> checkpoint.Before(segments[n].End()))
    decreases |segments|
  {
    if |segments| > 1 && !checkpoint.Before(segments[0].End()) {
      DeliveredCounts(segments[1..], checkpoint);
    }
  }

  function Ids(segments: seq<Segment>): set<nat> {
    set i | 0 <= i < |segments| :: segments[i].id
  }

  // The directory.

  function Unlink(d: Disk, ids: set<nat>): Disk {
    d.(files := map id | id in d.files :: if id in ids then d.files[id].(linked := false) else d.files[id])
  }

  /** The file an open-or-create of segment `id` yields. */
  function Entry(d: Disk, id: nat): File {
    if id in d.files && d.files[id].linked then d.files[id] else File([], 0, true, false)
  }

  /** Fsync of the directory: every listed name is on stable storage. */
  function SyncNames(d: Disk): Disk {
    d.(files := map id | id in d.files :: if d.files[id].linked then d.files[id].(named := true) else d.files[id])
  }

  /** Fsync of a whole segment file. */
  function Flush(d: Disk, id: nat): Disk {
    if id in d.files then FlushTo(d, id, |d.files[id].bytes|) else d
  }

  function FlushTo(d: Disk, id: nat, size: nat): Disk {
    if id in d.files && d.files[id].durable < size
    then d.(files := d.files[id := d.files[id].(durable := size)])
    else d
  }

  function AppendBytes(d: Disk, id: nat, more: Bytes): Disk {
    if id in d.files
    then d.(files := d.files[id := d.files[id].(bytes := d.files[id].bytes + more)])
    else d
  }

  // Sections run under the mutex.

  function AdvanceCommitted(m: Memory, position: Position): Memory {
    if m.committed.Before(position) then m.(committed := position) else m
  }

  function CreateSegment(st: Store, id: nat, io: CreateIO): (r: (Store, bool))
    ensures st.mem.segments <= r.0.mem.segments
  {
    match io
    case NotCreated => (st, false)
    case CreatedUnsynced =>
      (st.(disk := st.disk.(files := st.disk.files[id := Entry(st.disk, id)])), false)
    case Created =>
      (Store(st.mem.(active := true, segments := st.mem.segments + [Segment(id, 0)]),
             SyncNames(st.disk.(files := st.disk.files[id := Entry(st.disk, id)]))), true)
  }

  function Rotate(st: Store, io: RotateIO): (r: (Store, bool))
    requires st.mem.segments != []
    ensures st.mem.segments <= r.0.mem.segments
  {
    var last := Last(st.mem);
    if !st.mem.active then StartNext(st, io.create)
    else if !io.syncs then (st, false)
    else if !io.closes then (st.(disk := Flush(st.disk, last.id)), false)
    else
      StartNext(Store(st.mem.(active := false, synced := st.mem.appended), Flush(st.disk, last.id)), io.create)
  }

  function StartNext(st: Store, io: CreateIO): (r: (Store, bool))
    requires st.mem.segments != []
    ensures st.mem.segments <= r.0.mem.segments
  {
    var next := Last(st.mem).id + 1;
    var (st1, ok) := CreateSegment(st, next, io);
    if ok then (st1.(mem := AdvanceCommitted(st1.mem, Position(next, 0))), true) else (st1, false)
  }

  /** Deletes delivered segments until one deletion fails after `removals` successes. */
  function RemoveDelivered(st: Store, removals: nat): (r: (Store, bool))
    ensures st.mem.segments != [] ==> r.0.mem.segments != [] && Last(r.0.mem) == Last(st.mem)
    ensures r.0.disk.everSaved == st.disk.everSaved && r.0.mem.closed == st.mem.closed
  {
    var all := Delivered(st.mem.segments, st.mem.checkpoint);
    var n := if all <= removals then all else removals;
    (Store(st.mem.(segments := st.mem.segments[n..], total := st.mem.total - Sum(st.mem.segments[..n])),
           Unlink(st.disk, Ids(st.mem.segments[..n]))),
     all <= removals)
  }

  function Reclaim(st: Store, io: AppendIO): (r: (Store, bool))
    requires st.mem.segments != []
    ensures r.0.mem.segments != []
  {
    var last := Last(st.mem);
    if last.size > 0 && st.mem.checkpoint == last.End() then
      var (st1, ok) := Rotate(st, io.reclaim);
      if ok then RemoveDelivered(st1, io.removals) else (st1, false)
    else
      RemoveDelivered(st, io.removals)
  }

  function EnsureCapacity(st: Store, size: nat, io: AppendIO): (r: (Store, Result<()>))
    requires st.mem.segments != []
    ensures r.0.mem.segments != []
  {
    var (st1, ok) :=
      if size <= st.mem.maxBytes && size > st.mem.maxBytes - st.mem.total then Reclaim(st, io) else (st, true);
    if !ok then (st1, Err(StorageFailed))
    else if size > st1.mem.maxBytes - st1.mem.total then (st1.(mem := st1.mem.(full := true)), Err(SpoolFull))
    else (st1.(mem := st1.mem.(full := false)), Ok(()))
  }

  function NeedsRotation(m: Memory, size: nat): bool
    requires m.segments != []
  {
    !m.active || (Last(m).size > 0 && Last(m).size + size > m.segmentSize)
  }

  /** Writes one line to the open last segment; a failed write has been taken back. */
  function WriteLine(st: Store, line: Bytes, writes: bool): (Store, Result<nat>)
    requires st.mem.segments != []
  {
    if !writes then (st, Err(StorageFailed))
    else
      var last := Last(st.mem);
      var grown := st.mem.segments[|st.mem.segments| - 1 := Segment(last.id, last.size + |line|)];
      var m := st.mem.(segments := grown, total := st.mem.total + |line|, appended := st.mem.appended + 1);
      (Store(m, AppendBytes(st.disk, last.id, line)), Ok(m.appended))
  }

  /** Adds one line; the value is the record's number in this process. */
  function AppendLocked(st: Store, line: Bytes, io: AppendIO): (Store, Result<nat>)
    requires st.mem.segments != []
  {
    if st.mem.closed then (st, Err(SpoolClosed))
    else
      var (st1, room) := EnsureCapacity(st, |line|, io);
      if room.Err? then (st1, Err(room.error))
      else if NeedsRotation(st1.mem, |line|) then
        var (st2, rotated) := Rotate(st1, io.rotate);
        if !rotated then (st2, Err(StorageFailed)) else WriteLine(st2, line, io.writes)
      else
        WriteLine(st1, line, io.writes)
  }

  /** What an fsync outside the mutex remembers from the section that started it. */
  datatype Capture = Capture(segment: nat, size: nat, target: nat)

  function StartSync(m: Memory): Capture
    requires m.segments != []
  {
    Capture(Last(m).id, Last(m).size, m.appended)
  }

  /** The fsync's effect on the file and, when it succeeded, the section publishing it. */
  function FinishSync(st: Store, c: Capture, ok: bool): Store {
    if !ok then st
    else
      var m := if c.target > st.mem.synced then st.mem.(synced := c.target) else st.mem;
      Store(AdvanceCommitted(m, Position(c.segment, c.size)), FlushTo(st.disk, c.segment, c.size))
  }

  // Checkpoints.

  /** `position` ends a committed record of, or starts, a known segment. */
  predicate ValidCheckpoint(st: Store, position: Position) {
    && !st.mem.committed.Before(position)
    && exists i ::
         && 0 <= i < |st.mem.segments|
         && st.mem.segments[i].id == position.segment
         && position.offset <= st.mem.segments[i].size
         && position.segment in st.disk.files
         && Boundary(st.disk.files[position.segment].bytes, position.offset)
  }

  predicate CheckpointAccepted(st: Store, position: Position, boundaryRead: bool) {
    ValidCheckpoint(st, position) && (position.offset > 0 ==> boundaryRead)
  }

  function LoadCheckpoint(st: Store, boundaryRead: bool): Position
    requires st.mem.segments != []
  {
    var oldest := Position(st.mem.segments[0].id, 0);
    match st.disk.saved
    case NoCheckpoint => oldest
    case Unreadable => oldest
    case Saved(p) =>
      if p.Before(oldest) || !CheckpointAccepted(st, p, boundaryRead) then oldest else p
  }

  function SaveCheckpoint(d: Disk, position: Position): Disk {
    d.(saved := Saved(position), everSaved := d.everSaved + {position})
  }

  function Acknowledge(st: Store, position: Position, io: AckIO): (Store, Result<()>) {
    if st.mem.closed then (st, Err(SpoolClosed))
    else if position == st.mem.checkpoint then AfterSave(st, io)
    else if position.Before(st.mem.checkpoint) then (st, Err(MovesBackwards))
    else if !CheckpointAccepted(st, position, io.boundaryRead) then (st, Err(InvalidPosition))
    else
      match io.save
      case SaveFailed => (st, Err(StorageFailed))
      case SaveFailedButApplied => (st.(disk := SaveCheckpoint(st.disk, position)), Err(StorageFailed))
      case SaveDone =>
        AfterSave(Store(st.mem.(checkpoint := position), SaveCheckpoint(st.disk, position)), io)
  }

  function AfterSave(st: Store, io: AckIO): (Store, Result<()>) {
    var (st1, ok) := RemoveDelivered(st, io.removals);
    (st1, if ok then Ok(()) else Err(StorageFailed))
  }

  // Opening.

  lemma HasLeast(ids: set<nat>)
    requires ids != {}
    ensures exists m :: m in ids && forall x :: x in ids ==> m <= x
  {
    var y :| y in ids;
    var rest := ids - {y};
    if rest == {} {
      assert ids == {y};
    } else {
      HasLeast(rest);
      var m :| m in rest && forall x :: x in rest ==> m <= x;
      var least := if m <= y then m else y;
      assert forall x :: x in ids ==> x == y || x in rest;
      assert least in ids && forall x :: x in ids ==> least <= x;
    }
  }

  function Least(ids: set<nat>): (m: nat)
    requires ids != {}
    ensures m in ids && forall x :: x in ids ==> m <= x
  {
    HasLeast(ids);
    var m :| m in ids && forall x :: x in ids ==> m <= x;
    m
  }

  predicate Ascending(ids: seq<nat>) {
    forall i, j :: 0 <= i < j < |ids| ==> ids[i] < ids[j]
  }

  function Sorted(ids: set<nat>): (sorted: seq<nat>)
    ensures Ascending(sorted)
    ensures forall x :: x in sorted <==> x in ids
    decreases |ids|
  {
    if ids == {} then [] else
      var m := Least(ids);
      [m] + Sorted(ids - {m})
  }

  function Linked(d: Disk): set<nat> {
    set id | id in d.files && d.files[id].linked
  }

  function Listed(d: Disk, ids: seq<nat>): (segments: seq<Segment>)
    requires forall x :: x in ids ==> x in d.files
    ensures |segments| == |ids|
  {
    seq(|ids|, i requires 0 <= i < |ids| => Segment(ids[i], |d.files[ids[i]].bytes|))
  }

  /** Cuts a torn record off segment `id`; only an actual cut is fsynced. */
  function Repair(d: Disk, id: nat): Disk
    requires id in d.files
  {
    var file := d.files[id];
    var keep := LastBoundary(file.bytes);
    if keep == |file.bytes| then d
    else d.(files := d.files[id := file.(bytes := file.bytes[..keep], durable := keep)])
  }

  /** The directory as `Open` leaves it before reading the checkpoint. */
  function Adopted(d: Disk): (d1: Disk)
    ensures Linked(d1) != {}
  {
    var ids := Sorted(Linked(d));
    if ids == [] then
      var d1 := d.(files := d.files[1 := Entry(d, 1).(named := true)]);
      assert 1 in Linked(d1);
      d1
    else
      var last := ids[|ids| - 1];
      assert last in Linked(d);
      var d1 := Repair(d, last);
      assert last in Linked(d1);
      d1
  }

  function SegmentLimit(maxBytes: nat): nat {
    var quarter := if maxBytes / 4 > 1 then maxBytes / 4 else 1;
    if SEGMENT_SIZE < quarter then SEGMENT_SIZE else quarter
  }

  /** The directory as found, its tail repaired, before the checkpoint is read. */
  function Scanned(d: Disk, maxBytes: nat): (st: Store)
    ensures st.mem.segments != []
  {
    var d1 := Adopted(d);
    var ids := Sorted(Linked(d1));
    assert ids != [] by { var x :| x in Linked(d1); assert x in ids; }
    var segments := Listed(d1, ids);
    Store(Memory(maxBytes, SegmentLimit(maxBytes), segments, true, Sum(segments), 0, 0,
                 segments[|segments| - 1].End(), Position(0, 0), false, false), d1)
  }

  function Open(d: Disk, maxBytes: nat, io: OpenIO): Store {
    var st := Scanned(d, maxBytes);
    RemoveDelivered(st.(mem := st.mem.(checkpoint := LoadCheckpoint(st, io.boundaryRead))), io.removals).0
  }

  /** `Close` fsyncs and closes the last segment; the result's flag says whether it succeeded. */
  function CloseStore(st: Store, syncs: bool): Store
    requires st.mem.segments != []
  {
    if st.mem.closed then st
    else Store(st.mem.(closed := true, active := false),
               if st.mem.active && syncs then Flush(st.disk, Last(st.mem).id) else st.disk)
  }

  // Crashes.

  /**
   `after` is what a power cut may leave of `before`: of every file at least its
   durable bytes, every durably named file, and any checkpoint ever written or
   none. A file whose deletion was not yet durable may be listed again.
   */
  predicate MayRemain(before: Disk, after: Disk) {
    && after.files.Keys <= before.files.Keys
    && (forall id :: id in before.files && before.files[id].named ==> id in after.files)
    && (forall id :: id in after.files ==>
          && after.files[id].bytes <= before.files[id].bytes
          && before.files[id].durable <= |after.files[id].bytes| == after.files[id].durable
          && (before.files[id].linked ==> after.files[id].linked)
          && after.files[id].named)
    && after.everSaved == before.everSaved
    && (after.saved.Saved? ==> after.saved.at in before.everSaved)
  }

  /** The number of the newest listed segment, 0 for none. */
  function Newest(d: Disk): nat {
    var ids := Sorted(Linked(d));
    if ids == [] then 0 else ids[|ids| - 1]
  }

  /** The length of every file, listed or not. */
  function Lengths(d: Disk): map<nat, nat> {
    map id | id in d.files :: |d.files[id].bytes|
  }

  /** A file whose first `size` bytes and whose name count as being on stable storage. */
  function Trusted(f: File, size: nat): File {
    f.(durable := if f.durable < size then size else f.durable, named := true)
  }

  /** The directory as a process sees it that takes what its open found for durable. */
  function Trust(d: Disk, adopted: map<nat, nat>): Disk {
    d.(files := map id | id in d.files :: if id in adopted then Trusted(d.files[id], adopted[id]) else d.files[id])
  }

  function TrustStore(st: Store, adopted: map<nat, nat>): Store {
    st.(disk := Trust(st.disk, adopted))
  }

  /** Everything listed in the directory is on stable storage. */
  predicate Stable(d: Disk) {
    forall id :: id in d.files && d.files[id].linked ==>
      d.files[id].named && d.files[id].durable == |d.files[id].bytes|
  }
}
