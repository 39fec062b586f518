/**
 The spool as the program runs it: mutable fields, storage calls whose outcome
 the caller of a section supplies, and loops over segments, lines and bytes.
 Every method is tied to the section function it implements.
 */
module SpoolCode {
  import opened Framing
  import opened M = SpoolModel
  import R = SpoolReading

  class Spool {
    const maxBytes: nat
    const segmentSize: nat
    var disk: Disk
    var segments: seq<Segment>
    var active: bool
    var total: int
    var appended: nat
    var synced: nat
    var committed: Position
    var checkpoint: Position
    var full: bool
    var closed: bool

    function State(): Store
      reads this
    {
      Store(Memory(maxBytes, segmentSize, segments, active, total, appended, synced, committed, checkpoint, full, closed),
            disk)
    }

    /** Opens the directory: repair the tail, list the segments, resume at the checkpoint. */
    constructor (d: Disk, maxBytes: nat, io: OpenIO)
      ensures State() == M.Open(d, maxBytes, io)
    {
      hide M.RemoveDelivered, M.LoadCheckpoint, M.Scanned;
      var found := Scan(d, maxBytes);
      this.maxBytes := found.mem.maxBytes;
      this.segmentSize := found.mem.segmentSize;
      this.disk := found.disk;
      this.segments := found.mem.segments;
      this.active := found.mem.active;
      this.total := found.mem.total;
      this.appended := found.mem.appended;
      this.synced := found.mem.synced;
      this.committed := found.mem.committed;
      this.checkpoint := found.mem.checkpoint;
      this.full := found.mem.full;
      this.closed := found.mem.closed;
      new;
      checkpoint := LoadCheckpoint(io.boundaryRead);
      var removed := RemoveDelivered(io.removals);
    }

    /** Cuts a torn record off the newest segment, or creates the first one. */
    static method RepairNewest(d: Disk) returns (d1: Disk)
      ensures d1 == M.Adopted(d)
    {
      var ids := M.Sorted(M.Linked(d));
      if ids == [] {
        return d.(files := d.files[1 := M.Entry(d, 1).(named := true)]);
      }
      var last := ids[|ids| - 1];
      assert last in M.Linked(d);
      var file := d.files[last];
      var keep := RepairTail(file.bytes);
      if keep == |file.bytes| {
        return d;
      }
      return d.(files := d.files[last := file.(bytes := file.bytes[..keep], durable := keep)]);
    }

    /** The fields before the checkpoint is read. */
    static method Scan(d: Disk, maxBytes: nat) returns (st: Store)
      ensures st == M.Scanned(d, maxBytes)
      ensures forall i, j :: 0 <= i < j < |st.mem.segments| ==> st.mem.segments[i].id < st.mem.segments[j].id
    {
      var d1 := RepairNewest(d);
      var ids := M.Sorted(M.Linked(d1));
      assert ids != [] by { var x :| x in M.Linked(d1); assert x in ids; }
      var segments := M.Listed(d1, ids);
      var total := TotalSize(segments);
      st := Store(Memory(maxBytes, M.SegmentLimit(maxBytes), segments, true, total, 0, 0,
                         segments[|segments| - 1].End(), Position(0, 0), false, false), d1);
    }

    /** The saved position when it is still a good one, else the oldest record. */
    method LoadCheckpoint(boundaryRead: bool) returns (position: Position)
      requires segments != [] && Distinct()
      ensures position == M.LoadCheckpoint(State(), boundaryRead)
    {
      hide M.CheckpointAccepted;
      position := Position(segments[0].id, 0);
      if disk.saved.Saved? && !disk.saved.at.Before(position) {
        var valid := ValidateCheckpoint(disk.saved.at, boundaryRead);
        if valid {
          position := disk.saved.at;
        }
      }
    }

    static method TotalSize(segments: seq<Segment>) returns (total: nat)
      ensures total == M.Sum(segments)
    {
      total := 0;
      for i := 0 to |segments|
        invariant total == M.Sum(segments[..i])
      {
        assert segments[..i + 1][..i] == segments[..i];
        total := total + segments[i].size;
      }
      assert segments[..|segments|] == segments;
    }

    method AdvanceCommitted(position: Position)
      modifies this`committed
      ensures State() == old(State()).(mem := M.AdvanceCommitted(old(State()).mem, position))
    {
      if committed.Before(position) {
        committed := position;
      }
    }

    method CreateSegment(id: nat, io: CreateIO) returns (ok: bool)
      modifies this
      ensures (State(), ok) == M.CreateSegment(old(State()), id, io)
    {
      if io == NotCreated {
        return false;
      }
      disk := disk.(files := disk.files[id := M.Entry(disk, id)]);
      if io == CreatedUnsynced {
        return false;
      }
      disk := M.SyncNames(disk);
      active := true;
      segments := segments + [Segment(id, 0)];
      return true;
    }

    method Rotate(io: RotateIO) returns (ok: bool)
      requires segments != []
      modifies this
      ensures (State(), ok) == M.Rotate(old(State()), io)
    {
      var next := segments[|segments| - 1].id + 1;
      if active {
        if !io.syncs {
          return false;
        }
        disk := M.Flush(disk, segments[|segments| - 1].id);
        if !io.closes {
          return false;
        }
        active := false;
        synced := appended;
      }
      ok := CreateSegment(next, io.create);
      if ok {
        AdvanceCommitted(Position(next, 0));
      }
    }

    /** Deletes delivered segments one by one, stopping at the first failed deletion. */
    method RemoveDelivered(removals: nat) returns (ok: bool)
      modifies this`segments, this`total, this`disk
      ensures (State(), ok) == M.RemoveDelivered(old(State()), removals)
    {
      hide M.Sum, M.Ids, M.Unlink, M.Delivered;
      ghost var st := State();
      ghost var all := M.Delivered(segments, checkpoint);
      var done := 0;
      RemoveNone(st);
      NextDelivered(segments, checkpoint);
      while |segments| > 1 && !checkpoint.Before(segments[0].End()) && done < removals
        invariant done <= removals && done <= all
        invariant segments == st.mem.segments[done..]
        invariant total == st.mem.total - M.Sum(st.mem.segments[..done])
        invariant disk == M.Unlink(st.disk, M.Ids(st.mem.segments[..done]))
        invariant M.Delivered(segments, checkpoint) == all - done
        invariant M.Delivered(segments, checkpoint) == 0 <==> |segments| <= 1 || checkpoint.Before(segments[0].End())
        decreases |segments|
      {
        var segment := segments[0];
        RemoveOneMore(st, done);
        NextDelivered(segments, checkpoint);
        disk := M.Unlink(disk, {segment.id});
        total := total - segment.size;
        segments := segments[1..];
        done := done + 1;
        NextDelivered(segments, checkpoint);
      }
      ok := |segments| <= 1 || checkpoint.Before(segments[0].End());
    }

    static lemma NextDelivered(segments: seq<Segment>, checkpoint: Position)
      ensures if |segments| <= 1 || checkpoint.Before(segments[0].End()) then M.Delivered(segments, checkpoint) == 0
              else M.Delivered(segments, checkpoint) == 1 + M.Delivered(segments[1..], checkpoint)
    {
    }

    static lemma RemoveNone(st: Store)
      ensures M.Sum(st.mem.segments[..0]) == 0 && M.Unlink(st.disk, M.Ids(st.mem.segments[..0])) == st.disk
    {
      assert st.mem.segments[..0] == [] && M.Ids([]) == {};
      assert M.Unlink(st.disk, {}) == st.disk;
    }

    static lemma RemoveOneMore(st: Store, n: nat)
      requires n < |st.mem.segments|
      ensures M.Sum(st.mem.segments[..n + 1]) == M.Sum(st.mem.segments[..n]) + st.mem.segments[n].size
      ensures M.Unlink(M.Unlink(st.disk, M.Ids(st.mem.segments[..n])), {st.mem.segments[n].id}) ==
              M.Unlink(st.disk, M.Ids(st.mem.segments[..n + 1]))
      ensures st.mem.segments[n..][1..] == st.mem.segments[n + 1..]
    {
      var a, b := st.mem.segments[..n], st.mem.segments[..n + 1];
      assert b[..n] == a;
      assert M.Ids(b) == M.Ids(a) + {st.mem.segments[n].id} by {
        forall id | id in M.Ids(b) ensures id in M.Ids(a) + {st.mem.segments[n].id} {
          var i :| 0 <= i < |b| && b[i].id == id;
          assert i < n ==> a[i].id == id;
        }
        forall id | id in M.Ids(a) ensures id in M.Ids(b) {
          var i :| 0 <= i < |a| && a[i].id == id;
          assert b[i].id == id;
        }
        assert b[n].id in M.Ids(b);
      }
    }

    method Reclaim(io: AppendIO) returns (ok: bool)
      requires segments != []
      modifies this
      ensures (State(), ok) == M.Reclaim(old(State()), io)
    {
      hide M.Rotate, M.RemoveDelivered;
      var last := segments[|segments| - 1];
      if last.size > 0 && checkpoint == last.End() {
        ok := Rotate(io.reclaim);
        if !ok {
          return;
        }
      }
      ok := RemoveDelivered(io.removals);
    }

    method EnsureCapacity(size: nat, io: AppendIO) returns (r: Result<()>)
      requires segments != []
      modifies this
      ensures (State(), r) == M.EnsureCapacity(old(State()), size, io)
    {
      if size <= maxBytes && size > maxBytes - total {
        var ok := Reclaim(io);
        if !ok {
          return Err(StorageFailed);
        }
      }
      if size > maxBytes - total {
        full := true;
        return Err(SpoolFull);
      }
      full := false;
      return Ok(());
    }

    method AppendLocked(line: Bytes, io: AppendIO) returns (r: Result<nat>)
      requires segments != []
      modifies this
      ensures (State(), r) == M.AppendLocked(old(State()), line, io)
    {
      hide M.EnsureCapacity, M.Rotate;
      if closed {
        return Err(SpoolClosed);
      }
      var room := EnsureCapacity(|line|, io);
      if room.Err? {
        return Err(room.error);
      }
      var last := segments[|segments| - 1];
      if !active || (last.size > 0 && last.size + |line| > segmentSize) {
        var rotated := Rotate(io.rotate);
        if !rotated {
          return Err(StorageFailed);
        }
        last := segments[|segments| - 1];
      }
      if !io.writes {
        return Err(StorageFailed);
      }
      disk := M.AppendBytes(disk, last.id, line);
      segments := segments[|segments| - 1 := Segment(last.id, last.size + |line|)];
      total := total + |line|;
      appended := appended + 1;
      return Ok(appended);
    }

    /** First section of syncThrough: done already, or what to fsync. */
    method BeginSync(generation: nat) returns (done: bool, capture: Capture)
      requires segments != []
      ensures done <==> synced >= generation
      ensures capture == M.StartSync(State().mem)
    {
      done := synced >= generation;
      var last := segments[|segments| - 1];
      capture := Capture(last.id, last.size, appended);
    }

    /** The fsync and the section after it; `r` is what syncThrough returns. */
    method EndSync(generation: nat, capture: Capture, ok: bool) returns (r: Result<()>)
      modifies this
      ensures State() == M.FinishSync(old(State()), capture, ok)
      ensures r.Ok? && generation <= capture.target ==> synced >= generation
      ensures r.Err? ==> !ok && synced < generation
    {
      if ok {
        disk := M.FlushTo(disk, capture.segment, capture.size);
      }
      if !ok {
        if synced >= generation {
          return Ok(());
        }
        return Err(StorageFailed);
      }
      if capture.target > synced {
        synced := capture.target;
      }
      AdvanceCommitted(Position(capture.segment, capture.size));
      return Ok(());
    }

    /** No two listed segments share a number. */
    ghost predicate Distinct()
      reads this
    {
      forall i, j :: 0 <= i < j < |segments| ==> segments[i].id < segments[j].id
    }

    method ValidateCheckpoint(position: Position, boundaryRead: bool) returns (valid: bool)
      requires Distinct()
      ensures valid == M.CheckpointAccepted(State(), position, boundaryRead)
    {
      if committed.Before(position) {
        return false;
      }
      for i := 0 to |segments|
        invariant forall j :: 0 <= j < i ==> segments[j].id != position.segment
      {
        if segments[i].id == position.segment {
          if position.offset > segments[i].size || position.segment !in disk.files {
            return false;
          }
          valid := Boundary(disk.files[position.segment].bytes, position.offset) && (position.offset > 0 ==> boundaryRead);
          return;
        }
      }
      return false;
    }

    method Acknowledge(position: Position, io: AckIO) returns (r: Result<()>)
      requires Distinct()
      modifies this
      ensures (State(), r) == M.Acknowledge(old(State()), position, io)
    {
      hide M.RemoveDelivered, M.CheckpointAccepted;
      if closed {
        return Err(SpoolClosed);
      }
      if position != checkpoint {
        if position.Before(checkpoint) {
          return Err(MovesBackwards);
        }
        var valid := ValidateCheckpoint(position, io.boundaryRead);
        if !valid {
          return Err(InvalidPosition);
        }
        if io.save == SaveFailed {
          return Err(StorageFailed);
        }
        disk := M.SaveCheckpoint(disk, position);
        if io.save == SaveFailedButApplied {
          return Err(StorageFailed);
        }
        checkpoint := position;
      }
      var ok := RemoveDelivered(io.removals);
      return if ok then Ok(()) else Err(StorageFailed);
    }

    method Close(syncs: bool)
      requires segments != []
      modifies this
      ensures State() == M.CloseStore(old(State()), syncs)
    {
      if closed {
        return;
      }
      closed := true;
      if active {
        active := false;
        if syncs {
          disk := M.Flush(disk, segments[|segments| - 1].id);
        }
      }
    }

    // Reading.

    /** How far the segment at `position` may be read, and the segment after it (0 for none). */
    method ReadableRange(position: Position) returns (limit: nat, next: nat, ok: bool)
      requires R.Readable(State())
      ensures var i := R.IndexOf(segments, position.segment);
              && ok == (position.Before(committed) && i < |segments|)
              && (ok && segments[i].id > position.segment ==> limit == 0 && next == segments[i].id)
              && (ok && segments[i].id == position.segment ==>
                    limit == R.Limit(State(), i) && next == if i + 1 < |segments| then segments[i + 1].id else 0)
              && (ok && segments[i].id == position.segment ==>
                    && position.segment in disk.files && limit <= |disk.files[position.segment].bytes|
                    && disk.files[position.segment].bytes[..limit] == R.Contents(State(), i))
    {
      limit, next := 0, 0;
      ok := false;
      if !position.Before(committed) {
        return;
      }
      for i := 0 to |segments|
        invariant forall j :: 0 <= j < i ==> segments[j].id < position.segment
      {
        if segments[i].id < position.segment {
          continue;
        }
        assert R.IndexOf(segments, position.segment) == i;
        ok := true;
        if segments[i].id > position.segment {
          next := segments[i].id;
          return;
        }
        limit := segments[i].size;
        if segments[i].id == committed.segment {
          limit := committed.offset;
        }
        if i + 1 < |segments| {
          next := segments[i + 1].id;
        }
        return;
      }
    }

    /** Where the line starting at `at` ends; past the end when no newline follows. */
    static method NextLine(b: Bytes, at: nat) returns (end: nat)
      requires at <= |b|
      ensures end == LineEnd(b, at)
    {
      var i := at;
      while i < |b| && b[i] != NEWLINE
        invariant at <= i <= |b|
        invariant LineEnd(b, at) == LineEnd(b, i)
      {
        i := i + 1;
      }
      end := i + 1;
    }

    static lemma NextPlaced(segment: nat, b: Bytes, at: nat)
      requires at <= |b|
      ensures var end := LineEnd(b, at);
              R.Placed(segment, RecordsFrom(b, at)) ==
              if end > |b| then []
              else [SpoolRecord(b[at..end - 1], Position(segment, end))] + R.Placed(segment, RecordsFrom(b, end))
    {
    }

    static lemma NextRecord(segment: nat, b: Bytes, at: nat, maxRecords: int, maxBytes: int)
      requires at <= |b| && maxRecords > 0 && maxBytes > 0
      ensures var end := LineEnd(b, at);
              if end > |b| then R.Take(R.Placed(segment, RecordsFrom(b, at)), maxRecords, maxBytes) == []
              else
                var record := SpoolRecord(b[at..end - 1], Position(segment, end));
                R.Take(R.Placed(segment, RecordsFrom(b, at)), maxRecords, maxBytes) ==
                [record] + R.Take(R.Placed(segment, RecordsFrom(b, end)), maxRecords - 1, maxBytes - |record.data| - 1)
    {
      hide R.Placed, RecordsFrom, LineEnd;
      var end := LineEnd(b, at);
      NextPlaced(segment, b, at);
      if end <= |b| {
        hide R.Take;
        var record := SpoolRecord(b[at..end - 1], Position(segment, end));
        R.TakeOne(record, R.Placed(segment, RecordsFrom(b, end)), maxRecords, maxBytes);
      }
    }

    /** Whole records of one segment's readable bytes, up to the limits. */
    static method ReadSegment(segment: nat, b: Bytes, offset: nat, maxRecords: int, maxBytes: int)
      returns (records: seq<SpoolRecord>)
      requires offset <= |b|
      ensures records == R.Take(R.Placed(segment, RecordsFrom(b, offset)), maxRecords, maxBytes)
    {
      records := [];
      var at, size := offset, 0;
      hide RecordsFrom, R.Take, R.Placed, LineEnd;
      while |records| < maxRecords && size < maxBytes
        invariant offset <= at <= |b|
        invariant records + R.Take(R.Placed(segment, RecordsFrom(b, at)), maxRecords - |records|, maxBytes - size) ==
                  R.Take(R.Placed(segment, RecordsFrom(b, offset)), maxRecords, maxBytes)
        decreases |b| - at
      {
        var end := NextLine(b, at);
        NextRecord(segment, b, at, maxRecords - |records|, maxBytes - size);
        if end > |b| {
          return;
        }
        records := records + [SpoolRecord(b[at..end - 1], Position(segment, end))];
        size := size + end - at;
        at := end;
      }
      R.TakeNothing(R.Placed(segment, RecordsFrom(b, at)), maxRecords - |records|, maxBytes - size);
    }
  
    static method SizeOf(records: seq<SpoolRecord>) returns (size: nat)
      ensures size == R.BytesOf(records)
    {
      size := 0;
      for i := 0 to |records|
        invariant size + R.BytesOf(records[i..]) == R.BytesOf(records)
      {
        assert records[i..][1..] == records[i + 1..];
        size := size + |records[i].data| + 1;
      }
    }

    ghost function LastId(): nat
      reads this
    {
      if segments == [] then 0 else segments[|segments| - 1].id
    }

    /** `records`, then what limits still allow of `pending`, make up `goal`. */
    static ghost predicate OnTrack(records: seq<SpoolRecord>, pending: seq<SpoolRecord>, maxRecords: int, maxBytes: int,
                                   goal: seq<SpoolRecord>)
    {
      records + R.Take(pending, maxRecords, maxBytes) == goal
    }

    static lemma OnTrackStarts(pending: seq<SpoolRecord>, maxRecords: int, maxBytes: int)
      ensures OnTrack([], pending, maxRecords, maxBytes, R.Take(pending, maxRecords, maxBytes))
    {
    }

    static lemma OnTrackRead(records: seq<SpoolRecord>, read: seq<SpoolRecord>, pending: seq<SpoolRecord>,
                             following: seq<SpoolRecord>,
                             maxRecords: int, maxBytes: int, taken: nat, goal: seq<SpoolRecord>)
      requires OnTrack(records, pending, maxRecords, maxBytes, goal)
      requires R.Take(pending, maxRecords, maxBytes) == read + R.Take(following, maxRecords - |read|, maxBytes - taken)
      ensures OnTrack(records + read, following, maxRecords - |read|, maxBytes - taken, goal)
    {
      var rest := R.Take(following, maxRecords - |read|, maxBytes - taken);
      assert records + (read + rest) == (records + read) + rest;
    }

    static lemma OnTrackEnds(records: seq<SpoolRecord>, pending: seq<SpoolRecord>, maxRecords: int, maxBytes: int,
                             goal: seq<SpoolRecord>)
      requires OnTrack(records, pending, maxRecords, maxBytes, goal)
      ensures records <= goal
      ensures pending == [] || maxRecords <= 0 || maxBytes <= 0 ==> records == goal
    {
    }

    /** One turn of the reader: stop, fail, skip ahead, or read on in a segment. */
    method ReadTurn(position: Position, maxRecords: int, maxBytes: int, readable: bool) returns (turn: R.Turn)
      requires R.Readable(State())
      ensures if turn.Failed? then !readable else turn == R.NextTurn(State(), position, maxRecords, maxBytes)
    {
      hide R.Take, R.Readable, R.Contents, R.Limit, R.BytesOf, RecordsFrom;
      Ascends();
      var limit, next, ok := ReadableRange(position);
      if !ok {
        return R.Done;
      }
      if position.offset >= limit {
        return if next == 0 then R.Done else R.Moved(Position(next, 0), [], 0);
      }
      if !readable {
        return R.Failed;
      }
      var read := ReadSegment(position.segment, disk.files[position.segment].bytes[..limit], position.offset, maxRecords, maxBytes);
      if read == [] {
        return R.Done;
      }
      var taken := SizeOf(read);
      return R.Moved(read[|read| - 1].end, read, taken);
    }

    lemma Ascends()
      requires R.Readable(State())
      ensures Distinct()
    {
    }

    /** A turn that moves gets closer to the end of the segment or of the list. */
    lemma TurnProgresses(position: Position, maxRecords: int, maxBytes: int)
      requires R.Readable(State()) && R.WholeLimits(State()) && maxRecords > 0 && maxBytes > 0
      ensures var turn := R.NextTurn(State(), position, maxRecords, maxBytes);
              turn.Moved? ==>
                || position.segment < turn.position.segment <= LastId()
                || (position.segment == turn.position.segment && Remaining(turn.position) < Remaining(position))
    {
      R.TurnAdvances(State(), position, maxRecords, maxBytes);
      Ascends();
      hide R.Take, R.Readable, R.WholeLimits, R.Contents, R.Pending, R.HereFrom, R.BytesOf;
    }

    /**
     Up to `maxRecords` committed records from `from`, and roughly `maxBytes`,
     across segment ends and deleted segments. The read after `goodReads` good ones fails.
     */
    method ReadBatch(from: Position, maxRecords: int, maxBytes: int, goodReads: nat)
      returns (records: seq<SpoolRecord>, failed: bool)
      requires R.Readable(State()) && R.WholeLimits(State())
      ensures !failed ==> records == R.Take(R.Pending(State(), from), maxRecords, maxBytes)
      ensures failed ==> records <= R.Take(R.Pending(State(), from), maxRecords, maxBytes)
    {
      hide R.Take, R.Pending, R.Readable, R.WholeLimits, R.NextTurn, OnTrack, Remaining;
      ghost var st := State();
      ghost var goal := R.Take(R.Pending(st, from), maxRecords, maxBytes);
      records, failed := [], false;
      var size, position, good := 0, from, 0;
      ghost var room, left := maxRecords, maxBytes;
      OnTrackStarts(R.Pending(st, from), maxRecords, maxBytes);
      while |records| < maxRecords && size < maxBytes
        invariant State() == st
        invariant room == maxRecords - |records| && left == maxBytes - size
        invariant OnTrack(records, R.Pending(st, position), room, left, goal)
        decreases if position.segment <= LastId() then LastId() - position.segment + 1 else 0, Remaining(position)
      {
        OnTrackEnds(records, R.Pending(st, position), room, left, goal);
        R.TurnAdvances(st, position, maxRecords - |records|, maxBytes - size);
        TurnProgresses(position, maxRecords - |records|, maxBytes - size);
        var turn := ReadTurn(position, maxRecords - |records|, maxBytes - size, good < goodReads);
        if turn.Done? {
          return;
        }
        if turn.Failed? {
          failed := true;
          return;
        }
        if turn.read != [] {
          OnTrackRead(records, turn.read, R.Pending(st, position), R.Pending(st, turn.position), room, left, turn.taken, goal);
          room, left := room - |turn.read|, left - turn.taken;
          records := records + turn.read;
          size := size + turn.taken;
          good := good + 1;
        }
        position := turn.position;
      }
      OnTrackEnds(records, R.Pending(st, position), room, left, goal);
    }

    ghost function Remaining(position: Position): nat
      reads this
    {
      var i := R.IndexOf(segments, position.segment);
      if i < |segments| && position.offset < R.Limit(State(), i) then R.Limit(State(), i) - position.offset else 0
    }
  }
}
