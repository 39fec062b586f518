/**
 Where the spool's promise stops: two runs that show its conditions are needed,
 and the order facts that hold without conditions.
 */
module SpoolLimits {
  import opened Framing
  import opened SpoolModel
  import opened SpoolSafety
  import opened SpoolReading
  import opened SpoolRuns

  // Positions and counters of one process only move forward.

  ghost predicate Forward(a: Memory, b: Memory) {
    a.committed.UpTo(b.committed) && a.checkpoint.UpTo(b.checkpoint) && a.synced <= b.synced && a.appended <= b.appended
  }

  lemma RotateForward(st: Store, io: RotateIO)
    requires st.mem.segments != [] && st.mem.synced <= st.mem.appended
    ensures Forward(st.mem, Rotate(st, io).0.mem) && Rotate(st, io).0.mem.synced <= Rotate(st, io).0.mem.appended
    ensures Rotate(st, io).0.mem.checkpoint == st.mem.checkpoint
  {
  }

  lemma RemoveForward(st: Store, removals: nat)
    ensures var m := RemoveDelivered(st, removals).0.mem;
            m == st.mem.(segments := m.segments, total := m.total)
  {
  }

  lemma EnsureCapacityForward(st: Store, size: nat, io: AppendIO)
    requires st.mem.segments != [] && st.mem.synced <= st.mem.appended
    ensures var m := EnsureCapacity(st, size, io).0.mem; Forward(st.mem, m) && m.synced <= m.appended
  {
    hide Rotate, RemoveDelivered;
    RotateForward(st, io.reclaim);
    RemoveForward(st, io.removals);
    RemoveForward(Rotate(st, io.reclaim).0, io.removals);
  }

  lemma AppendForward(st: Store, line: Bytes, io: AppendIO)
    requires st.mem.segments != [] && st.mem.synced <= st.mem.appended
    ensures Forward(st.mem, AppendLocked(st, line, io).0.mem)
  {
    hide EnsureCapacity, Rotate;
    if !st.mem.closed {
      EnsureCapacityForward(st, |line|, io);
      RotateForward(EnsureCapacity(st, |line|, io).0, io.rotate);
    }
  }

  lemma AckForward(st: Store, position: Position, io: AckIO)
    ensures Forward(st.mem, Acknowledge(st, position, io).0.mem)
  {
    hide RemoveDelivered;
    RemoveForward(st, io.removals);
    RemoveForward(Store(st.mem.(checkpoint := position), SaveCheckpoint(st.disk, position)), io.removals);
  }

  /** In one process the commit point, the checkpoint and the counters never move back. */
  lemma StepForward(s: System, step: Step)
    requires Enabled(s, step) && s.proc.Some? && Apply(s, step).proc.Some?
    requires s.proc.value.synced <= s.proc.value.appended
    ensures Forward(s.proc.value, Apply(s, step).proc.value)
  {
    hide AppendLocked, Acknowledge;
    var st := Store(s.proc.value, s.disk);
    if step.Append? {
      AppendForward(st, step.record + [NEWLINE], step.appendIO);
    } else if step.Ack? {
      AckForward(st, step.position, step.ackIO);
    }
  }

  /** `p` ends whole records of a listed segment, fsynced or adopted by the last open, name included. */
  ghost predicate Settles(s: System, p: Position) {
    && p.segment in s.disk.files && Boundary(s.disk.files[p.segment].bytes, p.offset)
    && (p.offset <= s.disk.files[p.segment].durable
        || (p.segment in s.log.adopted && p.offset <= s.log.adopted[p.segment]))
    && (s.disk.files[p.segment].named || p.segment in s.log.adopted)
  }

  /** Record `n` is whole and fsynced, in a file whose name is fsynced or was adopted. */
  ghost predicate Whole(s: System, n: nat) {
    n in s.log.records &&
    var l := s.log.records[n];
    && OnDisk(s.disk, l) && FsyncedOn(s.disk, l)
    && (s.disk.files[l.segment].named || l.segment in s.log.adopted)
  }

  lemma SyncedBytes(s: System, n: nat)
    requires Inv(s) && s.proc.Some? && s.log.base < n <= s.log.base + s.proc.value.synced
    ensures Whole(s, n)
  {
    var t := TrustStore(StoreOf(s), s.log.adopted);
    SyncedRecord(t, s.log, n - s.log.base);
    assert OnDisk(t.disk, s.log.records[n]);
  }

  ghost predicate CommitSettled(s: System) {
    s.proc.Some? ==>
      var m := s.proc.value; m.segments != [] && m.committed.segment == Last(m).id && Settles(s, m.committed)
  }

  lemma CommitPoint(s: System)
    requires Inv(s)
    ensures CommitSettled(s)
  {
  }

  lemma AcceptedInOrder(s: System, n: nat, k: nat)
    requires Inv(s) && n in s.log.accepted && k in s.log.accepted && n < k
    ensures s.log.accepted[n].End().UpTo(s.log.accepted[k].Start())
  {
  }

  /**
   Over every run: the records a process numbers up to `synced` are whole and fsynced;
   the commit point is a record boundary of the last segment, fsynced or adopted; and
   accepted records lie in the order they were appended.
   */
  lemma SyncedIsDurable(steps: seq<Step>)
    requires Runs(EMPTY, steps) && CutsAllowed(EMPTY, steps)
    ensures var s := Exec(EMPTY, steps);
            && (forall n, k :: n in s.log.accepted && k in s.log.accepted && n < k ==>
                  s.log.accepted[n].End().UpTo(s.log.accepted[k].Start()))
            && CommitSettled(s)
            && (s.proc.Some? ==> forall n: nat :: s.log.base < n <= s.log.base + s.proc.value.synced ==> Whole(s, n))
  {
    hide Inv, Whole, CommitSettled;
    EmptyIsGood();
    RunKeeps(EMPTY, steps);
    var s := Exec(EMPTY, steps);
    CommitPoint(s);
    forall n, k | n in s.log.accepted && k in s.log.accepted && n < k
      ensures s.log.accepted[n].End().UpTo(s.log.accepted[k].Start())
    {
      AcceptedInOrder(s, n, k);
    }
    forall n: nat | s.proc.Some? && s.log.base < n <= s.log.base + s.proc.value.synced ensures Whole(s, n) {
      SyncedBytes(s, n);
    }
  }

  /** When opens find stable directories, "or adopted" falls away: nothing is taken on trust. */
  lemma StableRunsTrustNothing(steps: seq<Step>)
    requires Runs(EMPTY, steps) && StableOpens(EMPTY, steps)
    ensures CutsAllowed(EMPTY, steps)
    ensures var s := Exec(EMPTY, steps);
            forall id :: id in s.log.adopted ==>
              id in s.disk.files && s.disk.files[id].named && s.log.adopted[id] <= s.disk.files[id].durable
  {
    EmptyIsGood();
    TrustNothing(EMPTY.disk);
    StableOpensAreAllowed(EMPTY, steps);
    RunKeeps(EMPTY, steps);
    var s := Exec(EMPTY, steps);
    forall id | id in s.log.adopted
      ensures id in s.disk.files && s.disk.files[id].named && s.log.adopted[id] <= s.disk.files[id].durable
    {
      assert id in s.disk.files;
      assert Trust(s.disk, s.log.adopted).files[id] == s.disk.files[id];
    }
  }

  // Concrete runs.

  const A: Bytes := [97]
  const B: Bytes := [98]
  const START := Position(1, 0)
  const ONE := Position(1, 2)
  const READ_ALL := OpenIO(true, 0)
  const WORKS := AppendIO(ALL_GOOD, 9, ALL_GOOD, true)
  const ROTATION_FAILS := AppendIO(ALL_GOOD, 9, RotateIO(true, true, NotCreated), true)

  /** The fields of a spool holding one segment of `size` bytes, right after opening. */
  function Fresh(maxBytes: nat, size: nat, checkpoint: Position): Memory {
    Memory(maxBytes, SegmentLimit(maxBytes), [Segment(1, size)], true, size, 0, 0, Position(1, size), checkpoint, false, false)
  }

  lemma OpenSingle(d: Disk, maxBytes: nat)
    requires 1 in d.files && d.files == map[1 := d.files[1]] && d.files[1].linked
    requires Boundary(d.files[1].bytes, |d.files[1].bytes|)
    ensures var size := |d.files[1].bytes|;
            Open(d, maxBytes, READ_ALL) ==
            Store(Fresh(maxBytes, size,
                        if d.saved.Saved? && d.saved.at.segment == 1 && Boundary(d.files[1].bytes, d.saved.at.offset)
                        then d.saved.at else START), d)
    ensures Adopted(d) == d && Lengths(d) == map[1 := |d.files[1].bytes|]
  {
    hide Scanned, RemoveDelivered, LoadCheckpoint, Boundary;
    SingleScanned(d, maxBytes);
    var st := Store(Fresh(maxBytes, |d.files[1].bytes|, Position(0, 0)), d);
    SingleCheckpoint(st);
    RemoveNothing(st.(mem := st.mem.(checkpoint := LoadCheckpoint(st, true))), 0);
  }

  lemma SingleScanned(d: Disk, maxBytes: nat)
    requires 1 in d.files && d.files == map[1 := d.files[1]] && d.files[1].linked
    requires Boundary(d.files[1].bytes, |d.files[1].bytes|)
    ensures Scanned(d, maxBytes) == Store(Fresh(maxBytes, |d.files[1].bytes|, Position(0, 0)), d)
    ensures Adopted(d) == d && Lengths(d) == map[1 := |d.files[1].bytes|]
  {
    hide Sorted, LastBoundary, Boundary;
    var size := |d.files[1].bytes|;
    SingleSorted(d);
    LastBoundaryIsGreatest(d.files[1].bytes, size);
    assert Adopted(d) == d;
    var segments := Listed(d, [1]);
    assert segments == [Segment(1, size)];
    assert Sum(segments) == size by { assert segments[..0] == []; }
  }

  lemma SingleSorted(d: Disk)
    requires 1 in d.files && d.files == map[1 := d.files[1]] && d.files[1].linked
    ensures Sorted(Linked(d)) == [1]
  {
    assert Linked(d) == {1};
    assert Linked(d) - {1} == {};
    assert Least(Linked(d)) == 1;
  }

  lemma SingleCheckpoint(st: Store)
    requires 1 in st.disk.files && st.mem.segments == [Segment(1, |st.disk.files[1].bytes|)]
    requires st.mem.committed == Position(1, |st.disk.files[1].bytes|)
    ensures var d := st.disk;
            LoadCheckpoint(st, true) ==
            if d.saved.Saved? && d.saved.at.segment == 1 && Boundary(d.files[1].bytes, d.saved.at.offset)
            then d.saved.at else START
  {
    if st.disk.saved.Saved? {
      var p := st.disk.saved.at;
      assert ValidCheckpoint(st, p) <==> p.segment == 1 && Boundary(st.disk.files[1].bytes, p.offset) by {
        assert st.mem.segments[0].id == 1;
      }
    }
  }

  const EMPTY_FILE := File([], 0, true, true)
  const NO_RECORDS := History(map[], map[], {}, 0, 1, 1, 0, map[1 := 0])

  lemma OpenEmptyDirectory(maxBytes: nat)
    ensures Open(EMPTY.disk, maxBytes, READ_ALL) ==
            Store(Fresh(maxBytes, 0, START), Disk(map[1 := EMPTY_FILE], NoCheckpoint, {}))
    ensures Lengths(Adopted(EMPTY.disk)) == map[1 := 0]
  {
    var d1 := Disk(map[1 := EMPTY_FILE], NoCheckpoint, {});
    assert Linked(EMPTY.disk) == {};
    assert Adopted(EMPTY.disk) == d1;
    OpenSingle(d1, maxBytes);
    SingleSorted(d1);
    LastBoundaryIsGreatest([], 0);
    assert Adopted(d1) == d1;
  }

  /** The state after `steps`, one step at a time. */
  ghost predicate Leads(s: System, step: Step, after: System) {
    Enabled(s, step) && Apply(s, step) == after
  }

  lemma LeadsFirst(s: System, step: Step, after: System, rest: seq<Step>)
    requires Leads(s, step, after) && Runs(after, rest)
    ensures Runs(s, [step] + rest) && Exec(s, [step] + rest) == Exec(after, rest)
  {
    assert ([step] + rest)[1..] == rest;
  }

  function Holding(bytes: Bytes, durable: nat, saved: Saved, everSaved: set<Position>): Disk {
    Disk(map[1 := File(bytes, durable, true, true)], saved, everSaved)
  }

  const LINE_A: Bytes := [97, 10]
  const LINE_B: Bytes := [98, 10]
  const AT_A := Located(1, 0, A)
  const AT_B := Located(1, 0, B)

  lemma OpenLeads(s: System, maxBytes: nat, d: Disk, m: Memory)
    requires s.proc.None? && maxBytes > 0 && Open(s.disk, maxBytes, READ_ALL) == Store(m, d)
    ensures Leads(s, OpenSpool(maxBytes, READ_ALL), System(d, Some(m), None, Opened(s.log, s.disk, m)))
  {
  }

  lemma FirstAppendLeads(d: Disk, maxBytes: nat, log: History, record: Bytes)
    requires d.files == map[1 := EMPTY_FILE] && maxBytes >= 8 && |record| == 1 && NoNewline(record) && log.newest == 1
    ensures Leads(System(d, Some(Fresh(maxBytes, 0, START)), None, log), Append(record, WORKS),
                  System(d.(files := map[1 := File(record + [NEWLINE], 0, true, true)]),
                         Some(Fresh(maxBytes, 0, START).(segments := [Segment(1, 2)], total := 2, appended := 1)), None,
                         log.(records := log.records[log.next := Located(1, 0, record)], next := log.next + 1)))
  {
    var st, line := Store(Fresh(maxBytes, 0, START), d), record + [NEWLINE];
    assert EnsureCapacity(st, 2, WORKS) == (st, Ok(()));
    assert [] + line == line;
    assert d.files[1 := File(line, 0, true, true)] == map[1 := File(line, 0, true, true)];
    assert WriteLine(st, line, true).0.disk == d.(files := map[1 := File(line, 0, true, true)]);
    assert st.mem.segments[0 := Segment(1, 2)] == [Segment(1, 2)];
  }

  const ONE_RECORD := History(map[1 := AT_A], map[], {}, 0, 2, 1, 0, map[1 := 0])
  const UNSYNCED_A := System(Holding(LINE_A, 0, NoCheckpoint, {}),
                             Some(Fresh(8, 0, START).(segments := [Segment(1, 2)], total := 2, appended := 1)),
                             None, ONE_RECORD)
  const ROTATED_A := System(Holding(LINE_A, 2, NoCheckpoint, {}),
                            Some(UNSYNCED_A.proc.value.(active := false, synced := 1)), None, ONE_RECORD)

  lemma FailedRotationLeads()
    ensures Leads(UNSYNCED_A, Append(B, ROTATION_FAILS), ROTATED_A)
  {
    var m := UNSYNCED_A.proc.value;
    assert NeedsRotation(m, 2);
    assert Flush(UNSYNCED_A.disk, 1) == ROTATED_A.disk;
  }

  const HIDING_RUN: seq<Step> :=
    [OpenSpool(8, READ_ALL)] + ([Append(A, WORKS)] + ([Append(B, ROTATION_FAILS)] + ([Accept(1)] + [])))
  const HIDDEN_A := ROTATED_A.(log := ONE_RECORD.(accepted := map[1 := AT_A]))

  const OPENED := System(Holding([], 0, NoCheckpoint, {}), Some(Fresh(8, 0, START)), None, NO_RECORDS)

  lemma HidingRunOpens()
    ensures Leads(EMPTY, OpenSpool(8, READ_ALL), OPENED)
  {
    OpenEmptyDirectory(8);
    OpenLeads(EMPTY, 8, OPENED.disk, OPENED.proc.value);
  }

  lemma HidingRunAppends()
    ensures Leads(OPENED, Append(A, WORKS), UNSYNCED_A)
  {
    FirstAppendLeads(OPENED.disk, 8, NO_RECORDS, A);
    assert A + [NEWLINE] == LINE_A;
    assert NO_RECORDS.records[1 := AT_A] == map[1 := AT_A];
  }

  lemma HidingRunAccepts()
    ensures Leads(ROTATED_A, Accept(1), HIDDEN_A)
  {
    AcceptLeads(ROTATED_A, 1, AT_A);
  }

  lemma HidingRunEnds()
    ensures Runs(EMPTY, HIDING_RUN) && Exec(EMPTY, HIDING_RUN) == HIDDEN_A
  {
    hide Leads, Runs, Exec;
    HidingRunOpens();
    HidingRunAppends();
    FailedRotationLeads();
    HidingRunAccepts();
    EmptyRun(HIDDEN_A);
    LeadsFirst(ROTATED_A, Accept(1), HIDDEN_A, []);
    LeadsFirst(UNSYNCED_A, Append(B, ROTATION_FAILS), ROTATED_A, [Accept(1)] + []);
    LeadsFirst(OPENED, Append(A, WORKS), UNSYNCED_A, [Append(B, ROTATION_FAILS)] + ([Accept(1)] + []));
    LeadsFirst(EMPTY, OpenSpool(8, READ_ALL), OPENED, [Append(A, WORKS)] + ([Append(B, ROTATION_FAILS)] + ([Accept(1)] + [])));
  }

  lemma EmptyRun(s: System)
    ensures Runs(s, []) && Exec(s, []) == s
  {
  }

  lemma AcceptLeads(s: System, g: nat, l: Located)
    requires s.proc.Some? && 1 <= g <= s.proc.value.synced
    requires s.log.base + g in s.log.records && s.log.records[s.log.base + g] == l
    ensures Leads(s, Accept(g), s.(log := s.log.(accepted := s.log.accepted[s.log.base + g := l])))
  {
  }

  /**
   A rotation that syncs the old segment but cannot create the next one lets an
   Append succeed whose record is retained yet not readable: the commit point
   stays behind until a rotation succeeds. Hence `active` in AcceptedIsDelivered.
   */
  lemma FailedRotationHidesRecord()
    ensures && Runs(EMPTY, HIDING_RUN) && CutsAllowed(EMPTY, HIDING_RUN)
            && var s := Exec(EMPTY, HIDING_RUN);
            && s.proc.Some? && !s.proc.value.active && !s.proc.value.closed
            && 1 in s.log.accepted && 1 !in s.log.settled
            && Retained(s, s.log.accepted[1])
            && Readable(Store(s.proc.value, s.disk))
            && Pending(Store(s.proc.value, s.disk), s.proc.value.checkpoint) == []
  {
    hide Runs, Exec;
    HidingRunEnds();
    KillsAreAllowed(EMPTY, HIDING_RUN);
    HiddenRecord(Store(HIDDEN_A.proc.value, HIDDEN_A.disk));
  }

  lemma HiddenRecord(st: Store)
    requires st == Store(ROTATED_A.proc.value, ROTATED_A.disk)
    ensures Readable(st) && Pending(st, st.mem.checkpoint) == [] && Retained(HIDDEN_A, AT_A)
  {
    assert Last(st.mem) == Segment(1, 2);
    assert st.mem.segments[0] == Segment(1, 2);
    assert Readable(st) && Contents(st, 0) == [];
    hide Readable, Contents;
    CaughtUp(st, st.mem.checkpoint);
  }

  // The second run: an open that finds an unsynced record.

  const WRITTEN_A := System(Holding(LINE_A, 0, NoCheckpoint, {}),
                            Some(Fresh(100, 0, START).(segments := [Segment(1, 2)], total := 2, appended := 1)),
                            None, ONE_RECORD)
  const KILLED_A := WRITTEN_A.(proc := None)
  const ADOPTED_A := System(KILLED_A.disk, Some(Fresh(100, 2, START)), None, ONE_RECORD.(base := 1, atOpen := 2, adopted := map[1 := 2]))
  const ACKED_A := System(Holding(LINE_A, 0, Saved(ONE), {ONE}), Some(Fresh(100, 2, ONE)), None,
                          ADOPTED_A.log.(settled := {1}))
  const CUT := System(Holding([], 0, Saved(ONE), {ONE}), None, None, ACKED_A.log.(records := map[], adopted := map[]))
  const REOPENED := System(CUT.disk, Some(Fresh(100, 0, START)), None, CUT.log.(atOpen := 0, adopted := map[1 := 0]))
  const WRITTEN_B := System(Holding(LINE_B, 0, Saved(ONE), {ONE}),
                            Some(Fresh(100, 0, START).(segments := [Segment(1, 2)], total := 2, appended := 1)),
                            None, REOPENED.log.(records := map[2 := AT_B], next := 3))
  const SYNCING_B := WRITTEN_B.(sync := Some(Capture(1, 2, 1)))
  const SYNCED_B := System(Holding(LINE_B, 2, Saved(ONE), {ONE}),
                           Some(WRITTEN_B.proc.value.(synced := 1, committed := ONE)), None, WRITTEN_B.log)
  const ACCEPTED_B := SYNCED_B.(log := SYNCED_B.log.(accepted := map[2 := AT_B]))
  const KILLED_B := ACCEPTED_B.(proc := None)
  const SKIPPED_B := System(KILLED_B.disk, Some(Fresh(100, 2, ONE)), None, KILLED_B.log.(base := 2, atOpen := 2, adopted := map[1 := 2]))

  const OPENED_100 := OPENED.(proc := Some(Fresh(100, 0, START)))

  lemma LosingRunOpens()
    ensures Leads(EMPTY, OpenSpool(100, READ_ALL), OPENED_100)
  {
    OpenEmptyDirectory(100);
    OpenLeads(EMPTY, 100, OPENED.disk, Fresh(100, 0, START));
  }

  lemma LosingRunWritesA()
    ensures Leads(OPENED_100, Append(A, WORKS), WRITTEN_A)
  {
    FirstAppendLeads(OPENED.disk, 100, NO_RECORDS, A);
    assert A + [NEWLINE] == LINE_A;
    assert NO_RECORDS.records[1 := AT_A] == map[1 := AT_A];
  }

  lemma LosingRunKillsA()
    ensures Leads(WRITTEN_A, Kill, KILLED_A)
  {
  }

  lemma LosingRunAdoptsA()
    ensures Leads(KILLED_A, OpenSpool(100, READ_ALL), ADOPTED_A)
  {
    OpenSingle(KILLED_A.disk, 100);
    OpenLeads(KILLED_A, 100, KILLED_A.disk, Fresh(100, 2, START));
  }

  lemma AckOfA()
    ensures Acknowledge(Store(ADOPTED_A.proc.value, ADOPTED_A.disk), ONE, AckIO(true, SaveDone, 0)).0 ==
            Store(ACKED_A.proc.value, ACKED_A.disk)
  {
    hide RemoveDelivered;
    var st := Store(ADOPTED_A.proc.value, ADOPTED_A.disk);
    assert ValidCheckpoint(st, ONE) by { assert st.mem.segments[0].id == 1; }
    assert SaveCheckpoint(st.disk, ONE) == ACKED_A.disk && st.mem.(checkpoint := ONE) == ACKED_A.proc.value;
    RemoveNothing(Store(ACKED_A.proc.value, ACKED_A.disk), 0);
  }

  lemma RemoveNothing(st: Store, removals: nat)
    requires |st.mem.segments| == 1
    ensures RemoveDelivered(st, removals) == (st, true)
  {
    assert Ids([]) == {} && st.mem.segments[..0] == [] && st.mem.segments[0..] == st.mem.segments;
    assert Unlink(st.disk, {}) == st.disk;
  }

  lemma LosingRunAcksA()
    ensures Leads(ADOPTED_A, Ack(ONE, AckIO(true, SaveDone, 0)), ACKED_A)
  {
    hide Acknowledge;
    AckOfA();
    assert ACKED_A.disk.everSaved != ADOPTED_A.disk.everSaved by { assert ONE in ACKED_A.disk.everSaved; }
    assert (set n | n in ADOPTED_A.log.records && ADOPTED_A.log.records[n].End().UpTo(ONE)) == {1};
  }

  lemma LosingRunCutsPower()
    ensures Leads(ACKED_A, PowerLoss(CUT.disk), CUT)
  {
    assert [] <= LINE_A;
    SingleSorted(CUT.disk);
    assert Survived(ACKED_A.log, CUT.disk).records == map[];
  }

  lemma LosingRunReopens()
    ensures Leads(CUT, OpenSpool(100, READ_ALL), REOPENED)
  {
    OpenSingle(CUT.disk, 100);
    OpenLeads(CUT, 100, CUT.disk, Fresh(100, 0, START));
  }

  lemma LosingRunWritesB()
    ensures Leads(REOPENED, Append(B, WORKS), WRITTEN_B)
  {
    FirstAppendLeads(REOPENED.disk, 100, REOPENED.log, B);
    assert B + [NEWLINE] == LINE_B;
    assert REOPENED.log.records[2 := AT_B] == map[2 := AT_B];
  }

  lemma LosingRunSyncsB()
    ensures Leads(WRITTEN_B, BeginSync(1), SYNCING_B)
    ensures Leads(SYNCING_B, EndSync(true), SYNCED_B)
    ensures Leads(SYNCED_B, Accept(1), ACCEPTED_B)
    ensures Leads(ACCEPTED_B, Kill, KILLED_B)
  {
    assert FlushTo(SYNCING_B.disk, 1, 2) == SYNCED_B.disk;
    AcceptLeads(SYNCED_B, 1, AT_B);
    assert SYNCED_B.log.accepted[2 := AT_B] == map[2 := AT_B];
  }

  lemma LosingRunSkipsB()
    ensures Leads(KILLED_B, OpenSpool(100, READ_ALL), SKIPPED_B)
  {
    OpenSingle(KILLED_B.disk, 100);
    OpenLeads(KILLED_B, 100, KILLED_B.disk, Fresh(100, 2, ONE));
  }

  const SECOND_HALF: seq<Step> :=
    [OpenSpool(100, READ_ALL)] + ([Append(B, WORKS)] + ([BeginSync(1)] + ([EndSync(true)] +
      ([Accept(1)] + ([Kill] + ([OpenSpool(100, READ_ALL)] + []))))))
  const LOSING_RUN: seq<Step> :=
    [OpenSpool(100, READ_ALL)] + ([Append(A, WORKS)] + ([Kill] + ([OpenSpool(100, READ_ALL)] +
      ([Ack(ONE, AckIO(true, SaveDone, 0))] + ([PowerLoss(CUT.disk)] + SECOND_HALF)))))

  lemma SecondHalfEnds()
    ensures Runs(CUT, SECOND_HALF) && Exec(CUT, SECOND_HALF) == SKIPPED_B
  {
    hide Leads, Runs, Exec;
    LosingRunReopens();
    LosingRunWritesB();
    LosingRunSyncsB();
    LosingRunSkipsB();
    EmptyRun(SKIPPED_B);
    var last := [OpenSpool(100, READ_ALL)] + [];
    LeadsFirst(KILLED_B, OpenSpool(100, READ_ALL), SKIPPED_B, []);
    LeadsFirst(ACCEPTED_B, Kill, KILLED_B, last);
    LeadsFirst(SYNCED_B, Accept(1), ACCEPTED_B, [Kill] + last);
    LeadsFirst(SYNCING_B, EndSync(true), SYNCED_B, [Accept(1)] + ([Kill] + last));
    LeadsFirst(WRITTEN_B, BeginSync(1), SYNCING_B, [EndSync(true)] + ([Accept(1)] + ([Kill] + last)));
    LeadsFirst(REOPENED, Append(B, WORKS), WRITTEN_B, [BeginSync(1)] + ([EndSync(true)] + ([Accept(1)] + ([Kill] + last))));
    LeadsFirst(CUT, OpenSpool(100, READ_ALL), REOPENED,
               [Append(B, WORKS)] + ([BeginSync(1)] + ([EndSync(true)] + ([Accept(1)] + ([Kill] + last)))));
  }

  lemma LosingRunEnds()
    ensures Runs(EMPTY, LOSING_RUN) && Exec(EMPTY, LOSING_RUN) == SKIPPED_B
  {
    hide Leads, Runs, Exec;
    LosingRunOpens();
    LosingRunWritesA();
    LosingRunKillsA();
    LosingRunAdoptsA();
    LosingRunAcksA();
    LosingRunCutsPower();
    SecondHalfEnds();
    var ack := Ack(ONE, AckIO(true, SaveDone, 0));
    var cut := [PowerLoss(CUT.disk)] + SECOND_HALF;
    LeadsFirst(ACKED_A, PowerLoss(CUT.disk), CUT, SECOND_HALF);
    LeadsFirst(ADOPTED_A, ack, ACKED_A, cut);
    LeadsFirst(KILLED_A, OpenSpool(100, READ_ALL), ADOPTED_A, [ack] + cut);
    LeadsFirst(WRITTEN_A, Kill, KILLED_A, [OpenSpool(100, READ_ALL)] + ([ack] + cut));
    LeadsFirst(OPENED_100, Append(A, WORKS), WRITTEN_A,
               [Kill] + ([OpenSpool(100, READ_ALL)] + ([ack] + cut)));
    LeadsFirst(EMPTY, OpenSpool(100, READ_ALL), OPENED_100,
               [Append(A, WORKS)] + ([Kill] + ([OpenSpool(100, READ_ALL)] + ([ack] + cut))));
  }

  /**
   Exactly which retained records delivery can see: those that end by the commit point.
   While the last segment is open for appending that is every accepted one.
   */
  lemma PendingExactly(steps: seq<Step>, n: nat)
    requires Runs(EMPTY, steps) && CutsAllowed(EMPTY, steps)
    requires var s := Exec(EMPTY, steps); s.proc.Some? && n in s.log.accepted && n !in s.log.settled
    ensures var s := Exec(EMPTY, steps);
            var st := StoreOf(s);
            var l := s.log.accepted[n];
            && Readable(st)
            && (SpoolRecord(l.data, l.End()) in Pending(st, st.mem.checkpoint) <==> l.End().UpTo(st.mem.committed))
            && (st.mem.active ==> l.End().UpTo(st.mem.committed))
  {
    hide Inv, Readable, Pending;
    EmptyIsGood();
    RunKeeps(EMPTY, steps);
    var s := Exec(EMPTY, steps);
    InvIsReadable(s);
    AcceptedCommitted(s, n);
    UnsettledPendingExactly(s, n);
  }

  /**
   A cut that loses adopted bytes breaks the promise. Open adopts a record that no
   fsync covers; once it is acknowledged and a power cut loses it, the saved
   checkpoint lies ahead of the file. A later record of the same length, written
   and fsynced in its place, is skipped: accepted, never delivered, not pending.
   */
  lemma LostAdoptionSkipsRecord()
    ensures && Runs(EMPTY, LOSING_RUN) && !CutsAllowed(EMPTY, LOSING_RUN)
            && var s := Exec(EMPTY, LOSING_RUN);
            && s.proc.Some? && s.proc.value.active
            && 2 in s.log.accepted && 2 !in s.log.settled
            && Readable(Store(s.proc.value, s.disk))
            && Pending(Store(s.proc.value, s.disk), s.proc.value.checkpoint) == []
  {
    hide Runs, Exec, CutsAllowed;
    LosingRunEnds();
    SkippedIsNotPending();
    hide Delivers;
    if CutsAllowed(EMPTY, LOSING_RUN) {
      AcceptedIsDelivered(LOSING_RUN);
    }
  }

  lemma SkippedIsNotPending()
    ensures var st := Store(SKIPPED_B.proc.value, SKIPPED_B.disk); Readable(st) && Pending(st, st.mem.checkpoint) == []
    ensures !Delivers(SKIPPED_B)
  {
    var st := Store(SKIPPED_B.proc.value, SKIPPED_B.disk);
    assert Last(st.mem) == Segment(1, 2) && st.mem.segments[0] == Segment(1, 2);
    assert Readable(st);
    hide Readable, Pending;
    CaughtUp(st, ONE);
    assert 2 in SKIPPED_B.log.accepted && 2 !in SKIPPED_B.log.settled;
  }
}
