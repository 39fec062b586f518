/**
 A run in which a power cut takes a whole accepted record: a rotation leaves the next
 segment's file behind without fsyncing its name, the process is killed, the next one
 adopts the file and appends to it, and the cut drops the name.
 */
module SpoolLostName {
  import opened Framing
  import opened SpoolModel
  import opened SpoolSafety
  import opened SpoolRuns
  import opened SpoolLimits

  const NAME_UNSYNCED := AppendIO(ALL_GOOD, 9, RotateIO(true, true, CreatedUnsynced), true)
  const AT_B2 := Located(2, 0, B)
  const FILE_A := File(LINE_A, 2, true, true)

  function Two(second: File): Disk {
    Disk(map[1 := FILE_A, 2 := second], NoCheckpoint, {})
  }

  const ORPHANED := System(Two(File([], 0, true, false)),
                           Some(UNSYNCED_A.proc.value.(active := false, synced := 1)), None, ONE_RECORD)
  const KILLED := ORPHANED.(proc := None)
  const BOTH := Memory(8, 2, [Segment(1, 2), Segment(2, 0)], true, 2, 0, 0, Position(2, 0), START, false, false)
  const ADOPTED := System(KILLED.disk, Some(BOTH), None,
                          ONE_RECORD.(base := 1, newest := 2, atOpen := 2, adopted := map[1 := 2, 2 := 0]))
  const WRITTEN := System(Two(File(LINE_B, 0, true, false)),
                          Some(BOTH.(segments := [Segment(1, 2), Segment(2, 2)], total := 4, appended := 1)), None,
                          ADOPTED.log.(records := map[1 := AT_A, 2 := AT_B2], next := 3))
  const SYNCING := WRITTEN.(sync := Some(Capture(2, 2, 1)))
  const SYNCED := System(Two(File(LINE_B, 2, true, false)),
                         Some(WRITTEN.proc.value.(synced := 1, committed := Position(2, 2))), None, WRITTEN.log)
  const KEPT := SYNCED.(log := SYNCED.log.(accepted := map[2 := AT_B2]))
  const LEFT := Disk(map[1 := FILE_A], NoCheckpoint, {})
  const LOST := System(LEFT, None, None, KEPT.log.(records := map[1 := AT_A], newest := 1, adopted := map[]))

  lemma RotationLeavesFile()
    ensures Leads(UNSYNCED_A, Append(B, NAME_UNSYNCED), ORPHANED)
  {
    var m := UNSYNCED_A.proc.value;
    assert NeedsRotation(m, 2);
    assert Flush(UNSYNCED_A.disk, 1) == Holding(LINE_A, 2, NoCheckpoint, {});
    assert Holding(LINE_A, 2, NoCheckpoint, {}).files[2 := File([], 0, true, false)] == ORPHANED.disk.files;
  }

  lemma KilledThere()
    ensures Leads(ORPHANED, Kill, KILLED)
  {
  }

  lemma BothSorted(d: Disk)
    requires d.files.Keys == {1, 2} && d.files[1].linked && d.files[2].linked
    ensures Sorted(Linked(d)) == [1, 2]
  {
    assert Linked(d) == {1, 2};
    assert Least({1, 2}) == 1 && {1, 2} - {1} == {2};
    assert Least({2}) == 2 && {2} - {2} == {};
  }

  lemma NothingToRepair()
    ensures Adopted(KILLED.disk) == KILLED.disk && Lengths(KILLED.disk) == map[1 := 2, 2 := 0]
  {
    BothSorted(KILLED.disk);
    LastBoundaryIsGreatest([], 0);
  }

  lemma BothScanned()
    ensures Scanned(KILLED.disk, 8) == Store(BOTH.(checkpoint := Position(0, 0)), KILLED.disk)
  {
    hide Adopted;
    NothingToRepair();
    BothSorted(KILLED.disk);
    var segments := Listed(KILLED.disk, [1, 2]);
    assert segments == BOTH.segments;
    assert segments[..1] == [Segment(1, 2)] && segments[..1][..0] == [];
    assert Sum(segments) == 2;
  }

  lemma OpenAdoptsBoth()
    ensures Open(KILLED.disk, 8, READ_ALL) == Store(BOTH, KILLED.disk)
    ensures Lengths(Adopted(KILLED.disk)) == map[1 := 2, 2 := 0]
  {
    hide Scanned, Adopted;
    NothingToRepair();
    BothScanned();
    NothingDelivered(KILLED.disk);
  }

  lemma NothingDelivered(d: Disk)
    ensures RemoveDelivered(Store(BOTH, d), 0).0 == Store(BOTH, d)
  {
    assert Delivered(BOTH.segments, START) == 0;
    assert BOTH.segments[..0] == [] && BOTH.segments[0..] == BOTH.segments && Ids([]) == {} && Unlink(d, {}) == d;
  }

  lemma OpensAgain()
    ensures Leads(KILLED, OpenSpool(8, READ_ALL), ADOPTED)
  {
    OpenAdoptsBoth();
    OpenLeads(KILLED, 8, KILLED.disk, BOTH);
  }

  lemma AppendsThere()
    ensures Leads(ADOPTED, Append(B, WORKS), WRITTEN)
  {
    var st := Store(BOTH, ADOPTED.disk);
    assert B + [NEWLINE] == LINE_B && [] + LINE_B == LINE_B;
    assert EnsureCapacity(st, 2, WORKS) == (st, Ok(()));
    assert st.disk.files[2 := File(LINE_B, 0, true, false)] == WRITTEN.disk.files;
    assert BOTH.segments[1 := Segment(2, 2)] == WRITTEN.proc.value.segments;
    assert ADOPTED.log.records[2 := AT_B2] == WRITTEN.log.records;
  }

  lemma SyncsThere()
    ensures Leads(WRITTEN, BeginSync(1), SYNCING)
    ensures Leads(SYNCING, EndSync(true), SYNCED)
    ensures Leads(SYNCED, Accept(1), KEPT)
  {
    assert FlushTo(SYNCING.disk, 2, 2).files == SYNCED.disk.files;
    AcceptLeads(SYNCED, 1, AT_B2);
    assert SYNCED.log.accepted[2 := AT_B2] == map[2 := AT_B2];
  }

  lemma CutDropsName()
    ensures Leads(KEPT, PowerLoss(LEFT), LOST)
  {
    SingleSorted(LEFT);
    assert Survived(KEPT.log, LEFT).records == map[1 := AT_A] by {
      assert LINE_A[0..1] == A;
    }
  }

  const REST: seq<Step> :=
    [Append(B, WORKS)] + ([BeginSync(1)] + ([EndSync(true)] + ([Accept(1)] + ([PowerLoss(LEFT)] + []))))
  const NAME_LOSING_RUN: seq<Step> :=
    [OpenSpool(8, READ_ALL)] + ([Append(A, WORKS)] + ([Append(B, NAME_UNSYNCED)] + ([Kill] + ([OpenSpool(8, READ_ALL)] + REST))))

  lemma RestEnds()
    ensures Runs(ADOPTED, REST) && Exec(ADOPTED, REST) == LOST
  {
    hide Leads, Runs, Exec;
    AppendsThere();
    SyncsThere();
    CutDropsName();
    EmptyRun(LOST);
    var cut := [PowerLoss(LEFT)] + [];
    LeadsFirst(KEPT, PowerLoss(LEFT), LOST, []);
    LeadsFirst(SYNCED, Accept(1), KEPT, cut);
    LeadsFirst(SYNCING, EndSync(true), SYNCED, [Accept(1)] + cut);
    LeadsFirst(WRITTEN, BeginSync(1), SYNCING, [EndSync(true)] + ([Accept(1)] + cut));
    LeadsFirst(ADOPTED, Append(B, WORKS), WRITTEN, [BeginSync(1)] + ([EndSync(true)] + ([Accept(1)] + cut)));
  }

  lemma RunEnds()
    ensures Runs(EMPTY, NAME_LOSING_RUN) && Exec(EMPTY, NAME_LOSING_RUN) == LOST
  {
    hide Leads, Runs, Exec;
    HidingRunOpens();
    HidingRunAppends();
    RotationLeavesFile();
    KilledThere();
    OpensAgain();
    RestEnds();
    LeadsFirst(KILLED, OpenSpool(8, READ_ALL), ADOPTED, REST);
    LeadsFirst(ORPHANED, Kill, KILLED, [OpenSpool(8, READ_ALL)] + REST);
    LeadsFirst(UNSYNCED_A, Append(B, NAME_UNSYNCED), ORPHANED, [Kill] + ([OpenSpool(8, READ_ALL)] + REST));
    LeadsFirst(OPENED, Append(A, WORKS), UNSYNCED_A,
               [Append(B, NAME_UNSYNCED)] + ([Kill] + ([OpenSpool(8, READ_ALL)] + REST)));
    LeadsFirst(EMPTY, OpenSpool(8, READ_ALL), OPENED,
               [Append(A, WORKS)] + ([Append(B, NAME_UNSYNCED)] + ([Kill] + ([OpenSpool(8, READ_ALL)] + REST))));
  }

  /** A cut that drops an adopted name takes an accepted, fsynced record with it. */
  lemma LostNameLosesRecord()
    ensures && Runs(EMPTY, NAME_LOSING_RUN) && !CutsAllowed(EMPTY, NAME_LOSING_RUN)
            && var s := Exec(EMPTY, NAME_LOSING_RUN);
               2 in s.log.accepted && 2 !in s.log.settled && !OnDisk(s.disk, s.log.accepted[2])
  {
    hide Runs, Exec, CutsAllowed;
    RunEnds();
    assert 2 in LOST.log.accepted && !Retained(LOST, LOST.log.accepted[2]);
    if CutsAllowed(EMPTY, NAME_LOSING_RUN) {
      AcceptedNeverLost(NAME_LOSING_RUN);
    }
  }
}
