/**
 The size limit: what the spool occupies over a run, and the agreement between
 the capacity reported to admission and the appends that then succeed.
 */
module SpoolCapacity {
  import opened Framing
  import opened SpoolModel
  import opened SpoolSafety
  import opened SpoolRuns

  function Larger(a: int, b: int): int {
    if a < b then b else a
  }

  /** Bytes admission counts: a wholly delivered last segment can be reclaimed by the next append. */
  function Used(m: Memory): int {
    if m.segments != [] && m.checkpoint == Last(m).End() then m.total - Last(m).size else m.total
  }

  // Occupied bytes over a run.

  ghost predicate Bounded(s: System) {
    s.proc.Some? ==> s.proc.value.total <= Larger(s.proc.value.maxBytes, s.log.atOpen)
  }

  lemma RotateKeepsTotal(st: Store, io: RotateIO)
    requires st.mem.segments != []
    ensures Rotate(st, io).0.mem.total == st.mem.total && Rotate(st, io).0.mem.maxBytes == st.mem.maxBytes
  {
  }

  lemma RemoveShrinks(st: Store, removals: nat)
    ensures RemoveDelivered(st, removals).0.mem.total <= st.mem.total
    ensures RemoveDelivered(st, removals).0.mem.maxBytes == st.mem.maxBytes
  {
  }

  lemma ReclaimShrinks(st: Store, io: AppendIO)
    requires st.mem.segments != []
    ensures Reclaim(st, io).0.mem.total <= st.mem.total && Reclaim(st, io).0.mem.maxBytes == st.mem.maxBytes
  {
    hide Rotate, RemoveDelivered;
    RotateKeepsTotal(st, io.reclaim);
    RemoveShrinks(st, io.removals);
    RemoveShrinks(Rotate(st, io.reclaim).0, io.removals);
  }

  lemma EnsureCapacityFits(st: Store, size: nat, io: AppendIO)
    requires st.mem.segments != []
    ensures var (st1, r) := EnsureCapacity(st, size, io);
            && st1.mem.maxBytes == st.mem.maxBytes
            && st1.mem.total <= st.mem.total
            && (r.Ok? ==> st1.mem.total + size <= st.mem.maxBytes)
  {
    hide Reclaim;
    ReclaimShrinks(st, io);
  }

  /** An accepted append fits the limit; a refused one adds nothing. */
  lemma AppendFits(st: Store, line: Bytes, io: AppendIO)
    requires st.mem.segments != []
    ensures var (st1, r) := AppendLocked(st, line, io);
            && st1.mem.maxBytes == st.mem.maxBytes
            && (r.Ok? ==> st1.mem.total <= st.mem.maxBytes)
            && (r.Err? ==> st1.mem.total <= st.mem.total)
  {
    hide EnsureCapacity, Rotate;
    if !st.mem.closed {
      EnsureCapacityFits(st, |line|, io);
      RotateKeepsTotal(EnsureCapacity(st, |line|, io).0, io.rotate);
    }
  }

  lemma StepBounded(s: System, step: Step)
    requires Enabled(s, step) && Bounded(s)
    ensures Bounded(Apply(s, step))
  {
    match step
    case OpenSpool(_, _) =>
    case Append(record, io) =>
      AppendFits(Store(s.proc.value, s.disk), record + [NEWLINE], io);
    case BeginSync(_) =>
    case EndSync(_) =>
    case Accept(_) =>
    case Ack(position, io) =>
      AckShrinks(Store(s.proc.value, s.disk), position, io);
    case Close(_) =>
    case Kill =>
    case PowerLoss(_) =>
  }

  lemma AckShrinks(st: Store, position: Position, io: AckIO)
    ensures Acknowledge(st, position, io).0.mem.total <= st.mem.total
    ensures Acknowledge(st, position, io).0.mem.maxBytes == st.mem.maxBytes
  {
    hide RemoveDelivered;
    RemoveShrinks(st, io.removals);
    RemoveShrinks(Store(st.mem.(checkpoint := position), SaveCheckpoint(st.disk, position)), io.removals);
  }

  lemma {:induction false} RunBounded(s: System, steps: seq<Step>)
    requires Runs(s, steps) && Bounded(s)
    ensures Bounded(Exec(s, steps))
    decreases |steps|
  {
    hide Bounded, Enabled, Apply;
    if steps != [] {
      StepBounded(s, steps[0]);
      RunBounded(Apply(s, steps[0]), steps[1..]);
    }
  }

  predicate Exact(m: Memory) {
    m.segments != [] && m.total == Sum(m.segments)
  }

  lemma RotateExact(st: Store, io: RotateIO)
    requires Exact(st.mem)
    ensures Exact(Rotate(st, io).0.mem)
  {
    SumSnoc(st.mem.segments, Segment(Last(st.mem).id + 1, 0));
  }

  lemma RemoveExact(st: Store, removals: nat)
    requires Exact(st.mem)
    ensures Exact(RemoveDelivered(st, removals).0.mem)
  {
    var all := Delivered(st.mem.segments, st.mem.checkpoint);
    SumSplit(st.mem.segments, if all <= removals then all else removals);
  }

  lemma CapacityExact(st: Store, size: nat, io: AppendIO)
    requires Exact(st.mem)
    ensures Exact(EnsureCapacity(st, size, io).0.mem)
  {
    hide Rotate, RemoveDelivered;
    RemoveExact(st, io.removals);
    RotateExact(st, io.reclaim);
    RemoveExact(Rotate(st, io.reclaim).0, io.removals);
  }

  lemma AppendExact(st: Store, line: Bytes, io: AppendIO)
    requires Exact(st.mem)
    ensures Exact(AppendLocked(st, line, io).0.mem)
  {
    hide EnsureCapacity, Rotate;
    if !st.mem.closed {
      CapacityExact(st, |line|, io);
      var st1 := EnsureCapacity(st, |line|, io).0;
      RotateExact(st1, io.rotate);
      SumGrow(st1.mem.segments, |line|);
      SumGrow(Rotate(st1, io.rotate).0.mem.segments, |line|);
    }
  }

  lemma StepExact(s: System, step: Step)
    requires Enabled(s, step) && (s.proc.Some? ==> Exact(s.proc.value))
    ensures Apply(s, step).proc.Some? ==> Exact(Apply(s, step).proc.value)
  {
    hide RemoveDelivered, AppendLocked, LoadCheckpoint;
    match step
    case OpenSpool(maxBytes, io) =>
      var st := Scanned(s.disk, maxBytes);
      RemoveExact(st.(mem := st.mem.(checkpoint := LoadCheckpoint(st, io.boundaryRead))), io.removals);
    case Append(record, io) => AppendExact(Store(s.proc.value, s.disk), record + [NEWLINE], io);
    case Ack(position, io) =>
      var st := Store(s.proc.value, s.disk);
      RemoveExact(st, io.removals);
      RemoveExact(Store(st.mem.(checkpoint := position), SaveCheckpoint(st.disk, position)), io.removals);
    case _ =>
  }

  lemma {:induction false} RunExact(s: System, steps: seq<Step>)
    requires Runs(s, steps) && (s.proc.Some? ==> Exact(s.proc.value))
    ensures Exec(s, steps).proc.Some? ==> Exact(Exec(s, steps).proc.value)
    decreases |steps|
  {
    hide Exact, Enabled, Apply;
    if steps != [] {
      StepExact(s, steps[0]);
      RunExact(Apply(s, steps[0]), steps[1..]);
    }
  }

  /** Over every run `total` is the live segments' size and never passes both the limit and its value at open. */
  lemma TotalIsExactAndBounded(steps: seq<Step>)
    requires Runs(EMPTY, steps)
    ensures var s := Exec(EMPTY, steps);
            s.proc.Some? ==>
              && s.proc.value.total == Sum(s.proc.value.segments)
              && s.proc.value.total <= Larger(s.proc.value.maxBytes, s.log.atOpen)
  {
    RunExact(EMPTY, steps);
    RunBounded(EMPTY, steps);
  }

  // Admission and append agree.

  ghost predicate StorageWorks(st: Store, io: AppendIO) {
    io.reclaim == ALL_GOOD && io.rotate == ALL_GOOD && io.writes && io.removals > |st.mem.segments|
  }

  ghost predicate Sized(st: Store) {
    && st.mem.segments != []
    && SegmentsAscend(st.mem.segments)
    && st.mem.total == Sum(st.mem.segments)
  }

  lemma {:induction false} AllDelivered(segments: seq<Segment>, checkpoint: Position)
    requires segments != []
    requires forall i :: 0 <= i < |segments| - 1 ==> segments[i].End().UpTo(checkpoint)
    ensures Delivered(segments, checkpoint) == |segments| - 1
    decreases |segments|
  {
    if |segments| > 1 {
      AllDelivered(segments[1..], checkpoint);
    }
  }

  lemma RotateWorks(st: Store)
    requires st.mem.segments != []
    ensures var (st1, ok) := Rotate(st, ALL_GOOD);
            && ok && st1.mem.active
            && st1.mem.segments == st.mem.segments + [Segment(Last(st.mem).id + 1, 0)]
            && st1.mem.total == st.mem.total && st1.mem.checkpoint == st.mem.checkpoint
  {
  }

  lemma RemoveAll(st: Store, removals: nat)
    requires st.mem.segments != [] && removals >= |st.mem.segments|
    requires Delivered(st.mem.segments, st.mem.checkpoint) == |st.mem.segments| - 1
    ensures var (st1, ok) := RemoveDelivered(st, removals);
            && ok && st1.mem.active == st.mem.active && Last(st1.mem) == Last(st.mem)
            && st1.mem.total == st.mem.total - Sum(st.mem.segments[..|st.mem.segments| - 1])
  {
  }

  /** Reclaiming a wholly delivered spool leaves nothing but a fresh, empty segment. */
  lemma ReclaimEmpties(st: Store, io: AppendIO)
    requires Sized(st) && StorageWorks(st, io)
    requires Last(st.mem).size > 0 && st.mem.checkpoint == Last(st.mem).End()
    ensures var (st1, ok) := Reclaim(st, io); ok && st1.mem.total == 0 && st1.mem.active && Last(st1.mem).size == 0
  {
    hide Rotate, RemoveDelivered, Sum;
    var st1 := Rotate(st, ALL_GOOD).0;
    RotateWorks(st);
    forall i | 0 <= i < |st.mem.segments| ensures st1.mem.segments[i].End().UpTo(st.mem.checkpoint) {
      assert i < |st.mem.segments| - 1 ==> st.mem.segments[i].id < Last(st.mem).id;
    }
    AllDelivered(st1.mem.segments, st.mem.checkpoint);
    assert st1.mem.segments[..|st.mem.segments|] == st.mem.segments;
    RemoveAll(st1, io.removals);
  }

  /** What an append cannot free: nothing of a wholly delivered spool, else what is not yet delivered. */
  function Occupied(m: Memory): int
    requires m.segments != []
  {
    if m.checkpoint == Last(m).End() then 0 else m.total - Sum(m.segments[..Delivered(m.segments, m.checkpoint)])
  }

  lemma {:induction false} SumAtMost(segments: seq<Segment>, n: nat)
    requires n <= |segments|
    ensures Sum(segments[..n]) <= Sum(segments)
  {
    SumSplit(segments, n);
  }

  /** A wholly delivered spool whose last segment is empty has all others delivered. */
  lemma EmptyLast(st: Store)
    requires Sized(st) && st.mem.checkpoint == Last(st.mem).End() && Last(st.mem).size == 0
    ensures Delivered(st.mem.segments, st.mem.checkpoint) == |st.mem.segments| - 1
    ensures Sum(st.mem.segments[..|st.mem.segments| - 1]) == st.mem.total
  {
    forall i | 0 <= i < |st.mem.segments| - 1 ensures st.mem.segments[i].End().UpTo(st.mem.checkpoint) {
      assert st.mem.segments[i].id < Last(st.mem).id;
    }
    AllDelivered(st.mem.segments, st.mem.checkpoint);
  }

  /** With working storage a reclaim frees exactly what it can. */
  lemma ReclaimFrees(st: Store, io: AppendIO)
    requires Sized(st) && StorageWorks(st, io)
    ensures var (st1, ok) := Reclaim(st, io); ok && st1.mem.total == Occupied(st.mem)
  {
    if st.mem.checkpoint == Last(st.mem).End() {
      if Last(st.mem).size > 0 {
        ReclaimEmpties(st, io);
      } else {
        EmptyLast(st);
      }
    }
  }

  lemma CapacityAgrees(st: Store, size: nat, io: AppendIO)
    requires Sized(st) && StorageWorks(st, io)
    ensures EnsureCapacity(st, size, io).1 == if size <= st.mem.maxBytes - Occupied(st.mem) then Ok(()) else Err(SpoolFull)
    ensures 0 <= Occupied(st.mem) <= st.mem.total
  {
    hide Reclaim, Sum;
    SumAtMost(st.mem.segments, Delivered(st.mem.segments, st.mem.checkpoint));
    ReclaimFrees(st, io);
    ReclaimShrinks(st, io);
  }

  /**
   With working storage an append succeeds exactly when its line fits beside what cannot
   be freed; otherwise the spool is reported full.
   */
  lemma AdmissionAgrees(st: Store, line: Bytes, io: AppendIO)
    requires Sized(st) && StorageWorks(st, io) && !st.mem.closed
    ensures AppendLocked(st, line, io).1.Ok? <==> |line| <= st.mem.maxBytes - Occupied(st.mem)
    ensures AppendLocked(st, line, io).1.Err? ==> AppendLocked(st, line, io).1 == Err(SpoolFull)
  {
    hide EnsureCapacity, Occupied;
    CapacityAgrees(st, |line|, io);
    RotateWorks(EnsureCapacity(st, |line|, io).0);
  }

  /** What `Capacity` reports is at least that, and exactly that unless a delivered segment is left undeleted. */
  lemma ReportIsSafe(st: Store)
    requires Sized(st)
    ensures Occupied(st.mem) <= Used(st.mem)
    ensures Delivered(st.mem.segments, st.mem.checkpoint) == 0 ==> Used(st.mem) == Occupied(st.mem)
  {
    var m := st.mem;
    SumAtMost(m.segments, |m.segments| - 1);
    if m.checkpoint == Last(m).End() && |m.segments| > 1 {
      assert m.segments[0].id < Last(m).id;
    }
    assert |m.segments| == 1 ==> m.segments[..0] == [];
  }

  /** A line that fits what `Capacity` reports as free is accepted when storage works. */
  lemma FitsIsAccepted(st: Store, line: Bytes, io: AppendIO)
    requires Sized(st) && StorageWorks(st, io) && !st.mem.closed
    requires |line| <= st.mem.maxBytes - Used(st.mem)
    ensures AppendLocked(st, line, io).1.Ok?
  {
    hide AppendLocked, Occupied, Used;
    ReportIsSafe(st);
    AdmissionAgrees(st, line, io);
  }
}
