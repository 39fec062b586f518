/**
 Whole runs of the spool: processes that open, append, fsync, rotate, acknowledge and
 close, killed at any point, with power cuts in between. What every run keeps, and
 what it therefore delivers.
 */
module SpoolRuns {
  import opened Framing
  import opened SpoolModel
  import opened SpoolSafety
  import opened SpoolReading
  import opened SpoolTrust
  import opened SpoolRecovery

  // Every step, every run.

  ghost function StoreOf(s: System): Store
    requires s.proc.Some?
  {
    Store(s.proc.value, s.disk)
  }

  lemma GoodHasDisk(st: Store, log: History, sync: Option<Capture>)
    requires Good(st, log, sync)
    ensures DiskInv(st.disk, log)
  {
  }

  /** A process is sound when its trusted view is good and its fsyncs are what they seem. */
  lemma Arrives(st: Store, sync: Option<Capture>, log: History)
    requires Good(TrustStore(st, log.adopted), log, sync) && Fsynced(st, log) && log.next >= 1
    ensures Inv(System(st.disk, Some(st.mem), sync, log))
  {
    hide Good, DiskInv, Trust;
    GoodHasDisk(TrustStore(st, log.adopted), log, sync);
  }

  lemma Departs(s: System)
    requires Inv(s) && s.proc.Some?
    ensures var st := StoreOf(s);
            && Good(TrustStore(st, s.log.adopted), s.log, s.sync) && Fsynced(st, s.log) && s.log.next >= 1
            && Below(s.log.adopted, st.mem)
  {
    FsyncedBelow(StoreOf(s), s.log, s.sync);
  }

  lemma AppendStepKeeps(s: System, record: Bytes, io: AppendIO)
    requires Inv(s) && Enabled(s, Append(record, io))
    ensures Inv(Apply(s, Append(record, io)))
  {
    hide Inv, Good, AppendLocked, Fsynced, Trust, Below;
    var st, log, a := StoreOf(s), s.log, s.log.adopted;
    Departs(s);
    AppendKeeps(TrustStore(st, a), log, s.sync, record, io);
    TrustAppend(st, a, record + [NEWLINE], io);
    AppendFsynced(st, log, s.sync, record, io);
    var (st1, r) := AppendLocked(st, record + [NEWLINE], io);
    Arrives(st1, s.sync, Rotated(if r.Ok? then Written(log, st1.mem, record) else log, st1.mem));
  }

  lemma SyncStepKeeps(s: System, step: Step)
    requires Inv(s) && Enabled(s, step) && (step.BeginSync? || step.EndSync? || step.Accept?)
    ensures Inv(Apply(s, step))
  {
    hide Inv, Good, FinishSync, Fsynced, Trust, Below;
    var st, log, a := StoreOf(s), s.log, s.log.adopted;
    Departs(s);
    match step
    case BeginSync(_) =>
      BeginSyncKeeps(TrustStore(st, a), log);
      Arrives(st, Some(StartSync(st.mem)), log);
    case EndSync(ok) =>
      EndSyncKeeps(TrustStore(st, a), log, s.sync.value, ok);
      TrustFinishSync(st, a, s.sync.value, ok);
      FinishSyncFsynced(st, log, s.sync.value, ok);
      Arrives(FinishSync(st, s.sync.value, ok), None, log);
    case Accept(g) =>
      AcceptKeeps(TrustStore(st, a), log, s.sync, g);
      AcceptFsynced(st, log, s.sync, g);
      Arrives(st, s.sync, Accepted(log, log.base + g));
  }

  lemma AckStepKeeps(s: System, position: Position, io: AckIO)
    requires Inv(s) && Enabled(s, Ack(position, io))
    ensures Inv(Apply(s, Ack(position, io)))
  {
    hide Inv, Good, Acknowledge, Fsynced, Below;
    var st, log, a := StoreOf(s), s.log, s.log.adopted;
    Departs(s);
    AckKeeps(TrustStore(st, a), log, s.sync, position, io);
    TrustAck(st, a, position, io);
    AckFsynced(st, log, position, io);
    Arrives(Acknowledge(st, position, io).0, s.sync, AckLog(st, log, position, io));
  }

  lemma CloseStepKeeps(s: System, syncs: bool)
    requires Inv(s) && Enabled(s, Close(syncs))
    ensures Inv(Apply(s, Close(syncs)))
  {
    hide Inv, Good, CloseStore, Fsynced, Trust, Below;
    var st, log, a := StoreOf(s), s.log, s.log.adopted;
    Departs(s);
    CloseKeeps(TrustStore(st, a), log, syncs);
    TrustClose(st, a, syncs);
    CloseFsynced(st, log, syncs);
    Arrives(CloseStore(st, syncs), None, log);
  }

  lemma OpenStepKeeps(s: System, maxBytes: nat, io: OpenIO)
    requires Inv(s) && Enabled(s, OpenSpool(maxBytes, io))
    ensures Inv(Apply(s, OpenSpool(maxBytes, io)))
  {
    hide Good, DiskInv, Open, FsyncInv, Trust, Adopted, Lengths, Fsynced;
    OpenKeeps(s.disk, s.log, maxBytes, io);
    OpenFsynced(s.disk, s.log, maxBytes, io);
    var st := Open(s.disk, maxBytes, io);
    Arrives(st, None, Opened(s.log, s.disk, st.mem));
  }

  lemma TrustNothing(d: Disk)
    ensures Trust(d, map[]) == d
  {
    assert Trust(d, map[]).files == d.files;
  }

  /** Any step keeps the invariant, a power cut when what it leaves is harmless. */
  lemma StepKeeps(s: System, step: Step)
    requires Inv(s) && Enabled(s, step)
    requires step.PowerLoss? ==> Harmless(step.after, s.log)
    ensures Inv(Apply(s, step))
  {
    match step
    case OpenSpool(maxBytes, io) => OpenStepKeeps(s, maxBytes, io);
    case Append(record, io) => AppendStepKeeps(s, record, io);
    case Ack(position, io) => AckStepKeeps(s, position, io);
    case Close(syncs) => CloseStepKeeps(s, syncs);
    case Kill =>
    case PowerLoss(after) =>
      hide DiskInv, FsyncInv, Harmless, MayRemain, Trust;
      PowerLossKeeps(s.disk, after, s.log);
      TrustNothing(after);
    case _ => SyncStepKeeps(s, step);
  }

  ghost predicate Runs(s: System, steps: seq<Step>)
    decreases |steps|
  {
    steps == [] || (Enabled(s, steps[0]) && Runs(Apply(s, steps[0]), steps[1..]))
  }

  ghost function Exec(s: System, steps: seq<Step>): System
    requires Runs(s, steps)
    decreases |steps|
  {
    if steps == [] then s else Exec(Apply(s, steps[0]), steps[1..])
  }

  /** The cut keeps what the last open adopted, or comes where no cut can do harm. */
  ghost predicate CutAllowed(s: System, after: Disk) {
    KeepsAdopted(after, s.log.adopted) || CutSafe(s.disk, s.log)
  }

  /** Every power cut of the run is an allowed one. Kills and opens are not restricted. */
  ghost predicate CutsAllowed(s: System, steps: seq<Step>)
    requires Runs(s, steps)
    decreases |steps|
  {
    steps == [] ||
    ((steps[0].PowerLoss? ==> CutAllowed(s, steps[0].after)) && CutsAllowed(Apply(s, steps[0]), steps[1..]))
  }

  lemma InvAccepted(s: System)
    requires Inv(s)
    ensures forall n :: n in s.log.accepted ==> n in s.log.records && OnDisk(s.disk, s.log.accepted[n])
    ensures Measured(s.disk) && forall id :: id in s.disk.files ==> id > 0
  {
    var t := Trust(s.disk, s.log.adopted);
    forall n | n in s.log.accepted ensures n in s.log.records && OnDisk(s.disk, s.log.accepted[n]) {
      assert OnDisk(t, s.log.records[n]);
    }
    forall id | id in s.disk.files ensures s.disk.files[id].durable <= |s.disk.files[id].bytes| && id > 0 {
      assert id in t.files;
    }
  }

  lemma AllowedIsHarmless(s: System, after: Disk)
    requires Inv(s) && MayRemain(s.disk, after) && CutAllowed(s, after)
    ensures Harmless(after, s.log)
  {
    InvAccepted(s);
    hide MayRemain, Harmless, CutSafe, KeepsAdopted, OnDisk;
    if KeepsAdopted(after, s.log.adopted) {
      KeptIsHarmless(s.disk, after, s.log);
    } else {
      CutSafeIsHarmless(s.disk, after, s.log);
    }
  }

  lemma {:induction false} RunKeeps(s: System, steps: seq<Step>)
    requires Inv(s) && Runs(s, steps) && CutsAllowed(s, steps)
    ensures Inv(Exec(s, steps))
    decreases |steps|
  {
    hide Inv, Apply, CutAllowed, Harmless, MayRemain;
    if steps != [] {
      if steps[0].PowerLoss? {
        AllowedIsHarmless(s, steps[0].after);
      }
      StepKeeps(s, steps[0]);
      RunKeeps(Apply(s, steps[0]), steps[1..]);
    }
  }

  lemma EmptyIsGood()
    ensures Inv(EMPTY)
  {
  }

  /**
   The record's bytes are whole and fsynced, in a file the directory lists; the
   listing itself is fsynced or was adopted by the last open.
   */
  ghost predicate Retained(s: System, l: Located) {
    && OnDisk(s.disk, l) && FsyncedOn(s.disk, l) && Listing(s.disk, l.segment)
    && (s.disk.files[l.segment].named || l.segment in s.log.adopted)
  }

  lemma AcceptedRetained(s: System, n: nat)
    requires Inv(s) && n in s.log.accepted
    ensures n in s.log.settled || Retained(s, s.log.accepted[n])
  {
    var t := Trust(s.disk, s.log.adopted);
    assert OnDisk(t, s.log.records[n]) && DurableOn(t, s.log.accepted[n]);
    if n !in s.log.settled {
      assert Listing(t, s.log.records[n].segment);
    }
  }

  /**
   Whatever appends, fsyncs, rotations, acknowledgements, deletions, kills, opens and
   allowed power cuts a run makes, a record whose Append succeeded is settled or retained.
   */
  lemma AcceptedNeverLost(steps: seq<Step>)
    requires Runs(EMPTY, steps) && CutsAllowed(EMPTY, steps)
    ensures var s := Exec(EMPTY, steps);
            forall n :: n in s.log.accepted ==> n in s.log.settled || Retained(s, s.log.accepted[n])
  {
    hide Inv, Retained;
    EmptyIsGood();
    RunKeeps(EMPTY, steps);
    var s := Exec(EMPTY, steps);
    forall n | n in s.log.accepted ensures n in s.log.settled || Retained(s, s.log.accepted[n]) {
      AcceptedRetained(s, n);
    }
  }

  lemma GoodIsReadable(st: Store, log: History, sync: Option<Capture>)
    requires Good(st, log, sync)
    ensures Readable(st)
  {
    forall i | 0 <= i < |st.mem.segments|
      ensures st.mem.segments[i].id in st.disk.files
      ensures st.mem.segments[i].size <= |st.disk.files[st.mem.segments[i].id].bytes|
      ensures st.mem.segments[i].id == st.mem.committed.segment ==> i == |st.mem.segments| - 1
    {
      assert Mirrors(st.disk, st.mem.segments[i]);
      assert i < |st.mem.segments| - 1 ==> st.mem.segments[i].id < Last(st.mem).id;
    }
    assert Mirrors(st.disk, Last(st.mem));
  }

  /** Readers always stop at a record boundary. */
  lemma GoodHasWholeLimits(st: Store, log: History, sync: Option<Capture>)
    requires Good(st, log, sync) && Readable(st)
    ensures WholeLimits(st)
  {
    forall i | 0 <= i < |st.mem.segments| ensures Boundary(Contents(st, i), |Contents(st, i)|) {
      assert Mirrors(st.disk, st.mem.segments[i]);
    }
  }

  lemma UnsettledIsListed(st: Store, log: History, sync: Option<Capture>, n: nat)
    requires Good(st, log, sync) && n in log.records && n !in log.settled
    ensures OnDisk(st.disk, log.records[n]) && !log.records[n].End().UpTo(st.mem.checkpoint)
    ensures exists j :: 0 <= j < |st.mem.segments| && st.mem.segments[j].id == log.records[n].segment
  {
    assert OnDisk(st.disk, log.records[n]) && Listing(st.disk, log.records[n].segment);
    WrittenBelowNext(st.disk, log);
  }

  /** An unsettled record below the commit point is pending from the checkpoint. */
  lemma UnsettledIsPending(st: Store, log: History, sync: Option<Capture>, n: nat)
    requires Good(st, log, sync) && Readable(st)
    requires n in log.records && n !in log.settled
    requires log.records[n].End().UpTo(st.mem.committed)
    ensures SpoolRecord(log.records[n].data, log.records[n].End()) in Pending(st, st.mem.checkpoint)
  {
    hide DiskInv, CheckpointInv, SegmentsInv, Readable, Pending, CaptureInv, CommittedInv, SyncedDurable;
    var l := log.records[n];
    UnsettledIsListed(st, log, sync, n);
    var j :| 0 <= j < |st.mem.segments| && st.mem.segments[j].id == l.segment;
    RecordInContents(st, log, l, j);
    CheckpointStartsRecord(st, log, l, j);
    PendingContains(st, st.mem.checkpoint, j, l.start, l.data);
  }

  lemma RecordInContents(st: Store, log: History, l: Located, j: nat)
    requires ProcInv(st, log) && Readable(st) && OnDisk(st.disk, l)
    requires j < |st.mem.segments| && st.mem.segments[j].id == l.segment && l.End().UpTo(st.mem.committed)
    ensures Intact(Contents(st, j), l.start, l.data)
  {
    assert Mirrors(st.disk, st.mem.segments[j]);
    IntactInPrefix(st.disk.files[l.segment].bytes, Limit(st, j), l.start, l.data);
  }

  /** A boundary below a record's end lies at or below its start. */
  lemma BoundaryOutside(b: Bytes, k: nat, start: nat, data: Bytes)
    requires Intact(b, start, data) && Boundary(b, k) && k < start + |data| + 1
    ensures k <= start
  {
    forall i | start <= i < start + |data| ensures b[i] != NEWLINE {
      assert b[i] == b[start..start + |data|][i - start];
    }
  }

  lemma CheckpointStartsRecord(st: Store, log: History, l: Located, j: nat)
    requires CheckpointInv(st, log) && Readable(st) && OnDisk(st.disk, l) && !l.End().UpTo(st.mem.checkpoint)
    requires j < |st.mem.segments| && st.mem.segments[j].id == l.segment
    requires Intact(Contents(st, j), l.start, l.data)
    ensures st.mem.checkpoint.UpTo(l.Start())
    ensures st.mem.checkpoint.segment == l.segment ==> Boundary(Contents(st, j), st.mem.checkpoint.offset)
  {
    var c := st.mem.checkpoint;
    if c.segment == l.segment {
      BoundaryOutside(st.disk.files[l.segment].bytes, c.offset, l.start, l.data);
    }
  }

  /** What delivery finds: readable, whole records in order, each accepted one settled or pending while `active`. */
  ghost predicate Delivers(s: System) {
    s.proc.Some? ==>
      var st := StoreOf(s);
      && Readable(st) && WholeLimits(st)
      && EndsIncrease(Pending(st, st.mem.checkpoint))
      && (st.mem.active ==>
            forall n :: n in s.log.accepted ==>
              n in s.log.settled
              || SpoolRecord(s.log.accepted[n].data, s.log.accepted[n].End()) in Pending(st, st.mem.checkpoint))
  }

  lemma InvIsReadable(s: System)
    requires Inv(s) && s.proc.Some?
    ensures var st := StoreOf(s);
            && Readable(st) && Readable(TrustStore(st, s.log.adopted)) && WholeLimits(st)
            && Pending(TrustStore(st, s.log.adopted), st.mem.checkpoint) == Pending(st, st.mem.checkpoint)
  {
    hide Inv, Good, Readable, Pending, WholeLimits, Trust;
    var st, a := StoreOf(s), s.log.adopted;
    Departs(s);
    GoodIsReadable(TrustStore(st, a), s.log, s.sync);
    GoodHasWholeLimits(TrustStore(st, a), s.log, s.sync);
    ReadableTrust(st, a);
    PendingTrust(st, a, st.mem.checkpoint);
  }

  /** An unsettled record is pending exactly when it ends by the commit point. */
  lemma UnsettledPendingExactly(s: System, n: nat)
    requires Inv(s) && s.proc.Some? && n in s.log.records && n !in s.log.settled && Readable(StoreOf(s))
    ensures var st, l := StoreOf(s), s.log.records[n];
            SpoolRecord(l.data, l.End()) in Pending(st, st.mem.checkpoint) <==> l.End().UpTo(st.mem.committed)
  {
    hide Inv, Good, Readable, Pending, WholeLimits, Trust;
    var st, l := StoreOf(s), s.log.records[n];
    Departs(s);
    InvIsReadable(s);
    if l.End().UpTo(st.mem.committed) {
      UnsettledIsPending(TrustStore(st, s.log.adopted), s.log, s.sync, n);
    } else {
      forall k | 0 <= k < |Pending(st, st.mem.checkpoint)| ensures Pending(st, st.mem.checkpoint)[k].end != l.End() {
        PendingBelow(st, st.mem.checkpoint, k);
      }
    }
  }

  lemma AcceptedCommitted(s: System, n: nat)
    requires Inv(s) && s.proc.Some? && n in s.log.accepted
    ensures n in s.log.records && s.log.records[n] == s.log.accepted[n]
    ensures s.proc.value.active ==> s.log.accepted[n].End().UpTo(s.proc.value.committed)
  {
  }

  /**
   While the last segment is open for appending -- in particular right after any
   reopening -- every accepted record is settled or read back, whole and in
   order, from the position where delivery resumes.
   */
  lemma AcceptedIsDelivered(steps: seq<Step>)
    requires Runs(EMPTY, steps) && CutsAllowed(EMPTY, steps)
    ensures Delivers(Exec(EMPTY, steps))
  {
    hide Inv, Readable, Pending, WholeLimits;
    EmptyIsGood();
    RunKeeps(EMPTY, steps);
    var s := Exec(EMPTY, steps);
    if s.proc.Some? {
      var st := StoreOf(s);
      InvIsReadable(s);
      PendingIncreases(st, st.mem.checkpoint);
      forall n | st.mem.active && n in s.log.accepted && n !in s.log.settled
        ensures SpoolRecord(s.log.accepted[n].data, s.log.accepted[n].End()) in Pending(st, st.mem.checkpoint)
      {
        AcceptedCommitted(s, n);
        UnsettledPendingExactly(s, n);
      }
    }
  }

  // What an allowed cut is.

  /** Kills and restarts alone need no allowance. */
  lemma {:induction false} KillsAreAllowed(s: System, steps: seq<Step>)
    requires Runs(s, steps) && forall i :: 0 <= i < |steps| ==> !steps[i].PowerLoss?
    ensures CutsAllowed(s, steps)
    decreases |steps|
  {
    hide Apply, Enabled;
    if steps != [] {
      KillsAreAllowed(Apply(s, steps[0]), steps[1..]);
    }
  }

  /** Whether every possible cut of a reachable directory is harmless can be read off the directory. */
  lemma CutSafeExactly(steps: seq<Step>)
    requires Runs(EMPTY, steps) && CutsAllowed(EMPTY, steps)
    ensures var s := Exec(EMPTY, steps);
            (forall after :: MayRemain(s.disk, after) ==> Harmless(after, s.log)) <==> CutSafe(s.disk, s.log)
  {
    hide Inv, MayRemain, Harmless, CutSafe, Worst, OnDisk;
    EmptyIsGood();
    RunKeeps(EMPTY, steps);
    var s := Exec(EMPTY, steps);
    InvAccepted(s);
    if CutSafe(s.disk, s.log) {
      forall after | MayRemain(s.disk, after) ensures Harmless(after, s.log) {
        CutSafeIsHarmless(s.disk, after, s.log);
      }
    } else {
      WorstRemains(s.disk, false);
      WorstRemains(s.disk, true);
      if Harmless(Worst(s.disk, false), s.log) && Harmless(Worst(s.disk, true), s.log) {
        WorstShows(s.disk, s.log);
      }
    }
  }

  /** Each open of the run finds its directory on stable storage. */
  ghost predicate StableOpens(s: System, steps: seq<Step>)
    requires Runs(s, steps)
    decreases |steps|
  {
    steps == [] ||
    ((steps[0].OpenSpool? ==> Stable(s.disk)) && StableOpens(Apply(s, steps[0]), steps[1..]))
  }

  ghost predicate NothingOnTrust(s: System) {
    Trust(s.disk, s.log.adopted) == s.disk
  }

  lemma StableIsAllKept(s: System)
    requires Inv(s) && NothingOnTrust(s) && Stable(s.disk)
    ensures AllKept(s.disk) == s.disk && Measured(s.disk)
  {
    assert AllKept(s.disk).files == s.disk.files;
  }

  /** With nothing taken on trust every section leaves it so. */
  lemma StableInProcess(s: System, step: Step)
    requires Inv(s) && NothingOnTrust(s) && Enabled(s, step) && s.proc.Some? && !step.PowerLoss?
    ensures NothingOnTrust(Apply(s, step))
  {
    hide Inv, Good, Trust, AppendLocked, FinishSync, Acknowledge, CloseStore, Below;
    var st, a := StoreOf(s), s.log.adopted;
    Departs(s);
    assert TrustStore(st, a) == st;
    match step
    case Append(record, io) => TrustAppend(st, a, record + [NEWLINE], io);
    case EndSync(ok) => TrustFinishSync(st, a, s.sync.value, ok);
    case Ack(position, io) => TrustAck(st, a, position, io);
    case Close(syncs) => TrustClose(st, a, syncs);
    case _ =>
  }

  lemma StableCut(s: System, after: Disk)
    requires Inv(s) && NothingOnTrust(s) && MayRemain(s.disk, after)
    ensures KeepsAdopted(after, s.log.adopted)
  {
    forall id | id in s.log.adopted ensures id in after.files && s.log.adopted[id] <= |after.files[id].bytes| {
      assert id in s.disk.files;
      assert Trust(s.disk, s.log.adopted).files[id] == s.disk.files[id];
    }
  }

  lemma StableStep(s: System, step: Step)
    requires Inv(s) && NothingOnTrust(s) && Enabled(s, step) && (step.OpenSpool? ==> Stable(s.disk))
    ensures NothingOnTrust(Apply(s, step))
    ensures step.PowerLoss? ==> CutAllowed(s, step.after)
  {
    hide Inv, Trust, MayRemain, Open, Adopted, Lengths, AllKept, Stable, KeepsAdopted, CutSafe;
    match step
    case OpenSpool(maxBytes, io) =>
      StableIsAllKept(s);
      TrustOpen(s.disk, maxBytes, io);
    case PowerLoss(after) =>
      StableCut(s, after);
      TrustNothing(after);
    case _ => StableInProcess(s, step);
  }

  /** A run whose opens find everything on stable storage takes nothing on trust; all its cuts are allowed. */
  lemma {:induction false} StableOpensAreAllowed(s: System, steps: seq<Step>)
    requires Inv(s) && NothingOnTrust(s) && Runs(s, steps) && StableOpens(s, steps)
    ensures CutsAllowed(s, steps) && NothingOnTrust(Exec(s, steps))
    decreases |steps|
  {
    hide Inv, Apply, CutAllowed, Harmless, MayRemain, NothingOnTrust;
    if steps != [] {
      StableStep(s, steps[0]);
      if steps[0].PowerLoss? {
        AllowedIsHarmless(s, steps[0].after);
      }
      StepKeeps(s, steps[0]);
      StableOpensAreAllowed(Apply(s, steps[0]), steps[1..]);
    }
  }
}
