/**
 The spool and a forwarder together. The forwarder reads a batch from the checkpoint,
 ships a leading part of it -- its trace shows each record accepted, set aside or
 unreadable -- and confirms the position reached. Appends, fsyncs, rotations, kills
 and power cuts interleave.
 */
module Pipeline {
  import opened Framing
  import opened SpoolModel
  import opened SpoolReading
  import S = SpoolSafety
  import R = SpoolRuns
  import L = SpoolLimits
  import D = Delivery

  /** What `encode` makes of a record is what the forwarder sends for it, None for one it cannot read. */
  type Encoder = Bytes -> Option<Bytes>

  /** That a record was dealt with: its place in a forwarder's feed, and the forwarder's trace by then. */
  datatype Evidence = Evidence(data: Bytes, feed: D.Feed, trace: seq<D.Event>, index: nat)

  ghost predicate Proves(e: Evidence, encode: Encoder) {
    e.index < |e.feed.payloads| && e.feed.payloads[e.index] == encode(e.data) && D.Settled(e.feed, e.trace, e.index)
  }

  /** `read` is the batch in hand, `reach` the position that may be confirmed, `dealt` the records dealt with. */
  datatype Pipe = Pipe(spool: S.System, read: seq<SpoolRecord>, reach: Option<Position>, dealt: map<nat, Evidence>)

  const START := Pipe(S.EMPTY, [], None, map[])

  /**
   `Read` takes any leading part of what is pending, as a read cut short or overtaken by
   appends does. In `Ship` the batch in hand is the feed's from index `from` on.
   */
  datatype Step =
    | Spool(step: S.Step)
    | Read(count: nat)
    | Ship(count: nat, feed: D.Feed, from: nat, trace: seq<D.Event>)
    | Confirm(io: AckIO)

  function StoreOf(s: S.System): Store
    requires s.proc.Some?
  {
    Store(s.proc.value, s.disk)
  }

  predicate InProcess(step: S.Step) {
    step.Append? || step.BeginSync? || step.EndSync? || step.Accept?
  }

  /** The feed's records from `from` on are the batch's, and the first `count` of them are settled. */
  ghost predicate Shipped(read: seq<SpoolRecord>, count: nat, feed: D.Feed, from: nat, trace: seq<D.Event>, encode: Encoder) {
    && 0 < count <= |read| && from + count <= |feed.payloads|
    && (forall i :: 0 <= i < count ==> feed.payloads[from + i] == encode(read[i].data))
    && (forall i: nat :: from <= i < from + count ==> D.Settled(feed, trace, i))
  }

  /** Only the forwarder acknowledges, and only what it has dealt with; power cuts are allowed ones. */
  ghost predicate Enabled(p: Pipe, step: Step, encode: Encoder) {
    match step
    case Spool(st) => !st.Ack? && S.Enabled(p.spool, st) && (st.PowerLoss? ==> R.CutAllowed(p.spool, st.after))
    case Read(count) =>
      && p.spool.proc.Some? && Readable(StoreOf(p.spool))
      && count <= |Pending(StoreOf(p.spool), p.spool.proc.value.checkpoint)|
    case Ship(count, feed, from, trace) => Shipped(p.read, count, feed, from, trace, encode)
    case Confirm(_) => p.reach.Some? && p.spool.proc.Some?
  }

  function AsRead(l: S.Located): SpoolRecord {
    SpoolRecord(l.data, l.End())
  }

  function Numbers(log: S.History, batch: seq<SpoolRecord>): set<nat> {
    set n | n in log.records && AsRead(log.records[n]) in batch
  }

  function Place(batch: seq<SpoolRecord>, r: SpoolRecord): (i: nat)
    requires r in batch
    ensures i < |batch| && batch[i] == r
    decreases |batch|
  {
    if batch[0] == r then 0 else 1 + Place(batch[1..], r)
  }

  function Witness(batch: seq<SpoolRecord>, feed: D.Feed, from: nat, trace: seq<D.Event>, r: SpoolRecord): Evidence
    requires r in batch
  {
    Evidence(r.data, feed, trace, from + Place(batch, r))
  }

  ghost function Apply(p: Pipe, step: Step, encode: Encoder): Pipe
    requires Enabled(p, step, encode)
  {
    match step
    case Spool(st) =>
      if InProcess(st) then p.(spool := S.Apply(p.spool, st)) else Pipe(S.Apply(p.spool, st), [], None, p.dealt)
    case Read(count) =>
      var st := StoreOf(p.spool);
      p.(read := Pending(st, st.mem.checkpoint)[..count], reach := None)
    case Ship(count, feed, from, trace) =>
      var batch := p.read[..count];
      p.(dealt := p.dealt + map n | n in Numbers(p.spool.log, batch) ::
                              Witness(batch, feed, from, trace, AsRead(p.spool.log.records[n])),
         reach := Some(p.read[count - 1].end),
         read := [])
    case Confirm(io) =>
      p.(spool := S.Apply(p.spool, S.Ack(p.reach.value, io)))
  }

  /**
   Where a forwarder with a good trace acknowledges the end of a leading part of the
   batch, the trace up to there has shipped that part: the position may be confirmed.
   */
  lemma AckMeansShipped(read: seq<SpoolRecord>, count: nat, feed: D.Feed, from: nat, start: nat, trace: seq<D.Event>, done: nat, k: nat, encode: Encoder)
    requires D.Good(feed, start, trace, done) && start <= from && from + count <= |feed.payloads| && 0 < count <= |read|
    requires forall i :: 0 <= i < count ==> feed.payloads[from + i] == encode(read[i].data)
    requires k < |trace| && trace[k].Ack? && trace[k].position == from + count
    ensures Shipped(read, count, feed, from, trace[..k], encode)
  {
    hide D.Settled;
    forall i: nat | from <= i < from + count ensures D.Settled(feed, trace[..k], i) {
      assert trace[k].Ack? && start <= i < trace[k].position;
    }
  }

  /** Every record that ends by `at` was dealt with, or is among `batch`. */
  ghost predicate Covered(log: S.History, dealt: set<nat>, batch: seq<SpoolRecord>, at: Position) {
    forall n :: n in log.records && log.records[n].End().UpTo(at) ==> n in dealt || AsRead(log.records[n]) in batch
  }

  ghost predicate ReadSound(p: Pipe) {
    p.read != [] ==>
      p.spool.proc.Some? && forall k :: 0 <= k < |p.read| ==>
        p.read[k].end.UpTo(p.spool.proc.value.committed) && Covered(p.spool.log, p.dealt.Keys, p.read[..k + 1], p.read[k].end)
  }

  ghost predicate ReachSound(p: Pipe) {
    p.reach.Some? ==>
      && p.spool.proc.Some? && p.reach.value.UpTo(p.spool.proc.value.committed)
      && Covered(p.spool.log, p.dealt.Keys, [], p.reach.value)
  }

  ghost predicate Inv(p: Pipe) {
    S.Inv(p.spool) && p.spool.log.settled <= p.dealt.Keys && ReadSound(p) && ReachSound(p)
  }

  // Reading.

  /** A record that ends by the k-th pending one is the k-th or an earlier one. */
  lemma EarlierIsBefore(records: seq<SpoolRecord>, r: SpoolRecord, k: nat)
    requires EndsIncrease(records) && r in records && k < |records| && r.end.UpTo(records[k].end)
    ensures r in records[..k + 1]
  {
    var j :| 0 <= j < |records| && records[j] == r;
    assert j <= k;
    assert records[..k + 1][j] == r;
  }

  lemma ReadCovers(p: Pipe, pending: seq<SpoolRecord>, k: nat)
    requires S.Inv(p.spool) && p.spool.proc.Some? && Readable(StoreOf(p.spool)) && p.spool.log.settled <= p.dealt.Keys
    requires pending == Pending(StoreOf(p.spool), p.spool.proc.value.checkpoint) && k < |pending|
    ensures pending[k].end.UpTo(p.spool.proc.value.committed)
    ensures Covered(p.spool.log, p.dealt.Keys, pending[..k + 1], pending[k].end)
  {
    hide S.Good, S.Inv;
    var st, log := StoreOf(p.spool), p.spool.log;
    PendingBelow(st, st.mem.checkpoint, k);
    PendingIncreases(st, st.mem.checkpoint);
    hide Pending, Readable;
    forall n | n in log.records && log.records[n].End().UpTo(pending[k].end)
      ensures n in p.dealt.Keys || AsRead(log.records[n]) in pending[..k + 1]
    {
      if n !in log.settled {
        R.UnsettledPendingExactly(p.spool, n);
        EarlierIsBefore(pending, AsRead(log.records[n]), k);
      }
    }
  }

  lemma ReadKeeps(p: Pipe, count: nat, encode: Encoder)
    requires Inv(p) && Enabled(p, Read(count), encode)
    ensures Inv(Apply(p, Read(count), encode))
  {
    hide S.Inv, Pending, Readable, Covered;
    var st := StoreOf(p.spool);
    var pending := Pending(st, st.mem.checkpoint);
    var p1 := Apply(p, Read(count), encode);
    forall k | 0 <= k < |p1.read|
      ensures p1.read[k].end.UpTo(st.mem.committed) && Covered(p.spool.log, p.dealt.Keys, p1.read[..k + 1], p1.read[k].end)
    {
      ReadCovers(p, pending, k);
      assert p1.read[..k + 1] == pending[..k + 1];
    }
  }

  lemma ShipKeeps(p: Pipe, step: Step, encode: Encoder)
    requires Inv(p) && step.Ship? && Enabled(p, step, encode)
    ensures Inv(Apply(p, step, encode))
  {
    hide S.Inv, D.Settled;
    assert Covered(p.spool.log, p.dealt.Keys, p.read[..step.count], p.read[step.count - 1].end);
  }

  // Appending behind what was read.

  /** Whatever an append does, its record starts at or after the commit point before it. */
  lemma AppendsAfter(st: Store, line: Bytes, io: AppendIO, c: Position)
    requires st.mem.segments != [] && c.UpTo(Last(st.mem).End())
    ensures var (st1, r) := AppendLocked(st, line, io);
            r.Ok? ==> st1.mem.segments != [] && Last(st1.mem).size >= |line|
                      && c.UpTo(Position(Last(st1.mem).id, Last(st1.mem).size - |line|))
  {
    hide RemoveDelivered;
    if !st.mem.closed {
      CapacityAfter(st, |line|, io, c);
      hide EnsureCapacity;
      var (st1, room) := EnsureCapacity(st, |line|, io);
      RotateAfter(st1, io.rotate, c);
      hide Rotate;
    }
  }

  lemma RotateAfter(st: Store, io: RotateIO, c: Position)
    requires st.mem.segments != [] && c.UpTo(Last(st.mem).End())
    ensures var st1 := Rotate(st, io).0; st1.mem.segments != [] && c.UpTo(Last(st1.mem).End())
  {
  }

  lemma CapacityAfter(st: Store, size: nat, io: AppendIO, c: Position)
    requires st.mem.segments != [] && c.UpTo(Last(st.mem).End())
    ensures var st1 := EnsureCapacity(st, size, io).0; st1.mem.segments != [] && c.UpTo(Last(st1.mem).End())
  {
    hide RemoveDelivered, Rotate;
    RotateAfter(st, io.reclaim, c);
  }

  lemma CommittedBelowEnd(s: S.System)
    requires S.Inv(s) && s.proc.Some?
    ensures s.proc.value.segments != [] && s.proc.value.committed.UpTo(Last(s.proc.value).End())
    ensures s.proc.value.synced <= s.proc.value.appended
  {
    R.Departs(s);
    assert S.Mirrors(Trust(s.disk, s.log.adopted), Last(s.proc.value));
  }

  /** A step of the running process adds no record that ends by a position already committed. */
  lemma CoverStays(s: S.System, step: S.Step, dealt: set<nat>, batch: seq<SpoolRecord>, at: Position)
    requires S.Inv(s) && S.Enabled(s, step) && InProcess(step) && s.proc.Some?
    requires at.UpTo(s.proc.value.committed) && Covered(s.log, dealt, batch, at)
    ensures Covered(S.Apply(s, step).log, dealt, batch, at)
  {
    hide S.Inv;
    if step.Append? {
      CommittedBelowEnd(s);
      AppendsAfter(StoreOf(s), step.record + [NEWLINE], step.appendIO, s.proc.value.committed);
      hide AppendLocked;
    }
  }

  lemma ProcessKeeps(p: Pipe, step: S.Step, encode: Encoder)
    requires Inv(p) && Enabled(p, Spool(step), encode) && InProcess(step)
    ensures Inv(Apply(p, Spool(step), encode))
  {
    hide S.Inv, S.Apply, Covered;
    var p1 := Apply(p, Spool(step), encode);
    R.StepKeeps(p.spool, step);
    ProcessStays(p.spool, step);
    forall k | 0 <= k < |p.read|
      ensures p.read[k].end.UpTo(p1.spool.proc.value.committed)
      ensures Covered(p1.spool.log, p.dealt.Keys, p.read[..k + 1], p.read[k].end)
    {
      CoverStays(p.spool, step, p.dealt.Keys, p.read[..k + 1], p.read[k].end);
    }
    if p.reach.Some? {
      CoverStays(p.spool, step, p.dealt.Keys, [], p.reach.value);
    }
  }

  lemma ProcessStays(s: S.System, step: S.Step)
    requires S.Inv(s) && S.Enabled(s, step) && InProcess(step)
    ensures S.Apply(s, step).proc.Some? && S.Apply(s, step).log.settled == s.log.settled
    ensures s.proc.value.committed.UpTo(S.Apply(s, step).proc.value.committed)
  {
    hide S.Inv, AppendLocked, FinishSync;
    CommittedBelowEnd(s);
    L.StepForward(s, step);
  }

  lemma OutsideKeeps(p: Pipe, step: S.Step, encode: Encoder)
    requires Inv(p) && Enabled(p, Spool(step), encode) && !InProcess(step)
    ensures Inv(Apply(p, Spool(step), encode))
  {
    hide S.Inv, Open, CloseStore, MayRemain, R.CutAllowed;
    if step.PowerLoss? {
      R.AllowedIsHarmless(p.spool, step.after);
    }
    R.StepKeeps(p.spool, step);
  }

  /** Confirming settles only what was dealt with, and leaves the records as they are. */
  lemma ConfirmKeeps(p: Pipe, io: AckIO, encode: Encoder)
    requires Inv(p) && Enabled(p, Confirm(io), encode)
    ensures Inv(Apply(p, Confirm(io), encode))
  {
    hide S.Inv, Acknowledge;
    var step := S.Ack(p.reach.value, io);
    R.StepKeeps(p.spool, step);
    L.AckForward(StoreOf(p.spool), p.reach.value, io);
  }

  lemma StepKeeps(p: Pipe, step: Step, encode: Encoder)
    requires Inv(p) && Enabled(p, step, encode)
    ensures Inv(Apply(p, step, encode))
  {
    hide Inv, S.Apply, S.Enabled;
    match step
    case Spool(st) =>
      if InProcess(st) {
        ProcessKeeps(p, st, encode);
      } else {
        OutsideKeeps(p, st, encode);
      }
    case Read(count) => ReadKeeps(p, count, encode);
    case Ship(_, _, _, _) => ShipKeeps(p, step, encode);
    case Confirm(io) => ConfirmKeeps(p, io, encode);
  }

  // What is dealt with.

  /** Every record dealt with has its evidence, and keeps its number. */
  ghost predicate Proved(p: Pipe, encode: Encoder) {
    forall n :: n in p.dealt ==>
      && Proves(p.dealt[n], encode) && n < p.spool.log.next
      && (n in p.spool.log.records ==> p.spool.log.records[n].data == p.dealt[n].data)
  }

  /** Numbers are given out once. */
  lemma RecordsPersist(s: S.System, step: S.Step)
    requires S.Enabled(s, step)
    ensures var log := S.Apply(s, step).log;
            && s.log.next <= log.next
            && forall n :: n < s.log.next && n in log.records ==> n in s.log.records && log.records[n] == s.log.records[n]
  {
    hide Open, AppendLocked, FinishSync, Acknowledge, CloseStore, MayRemain;
  }

  lemma NumbersBelow(s: S.System, n: nat)
    requires S.Inv(s) && n in s.log.records
    ensures n < s.log.next
  {
  }

  lemma WitnessProves(read: seq<SpoolRecord>, count: nat, feed: D.Feed, from: nat, trace: seq<D.Event>, r: SpoolRecord, encode: Encoder)
    requires Shipped(read, count, feed, from, trace, encode) && r in read[..count]
    ensures Proves(Witness(read[..count], feed, from, trace, r), encode)
  {
    hide D.Settled;
    var i := Place(read[..count], r);
    assert feed.payloads[from + i] == encode(read[i].data);
  }

  lemma ShipProves(p: Pipe, step: Step, encode: Encoder)
    requires Inv(p) && Proved(p, encode) && step.Ship? && Enabled(p, step, encode)
    ensures Proved(Apply(p, step, encode), encode)
  {
    hide S.Inv, ReadSound, ReachSound, Proves, D.Settled, Witness;
    var log, batch := p.spool.log, p.read[..step.count];
    forall n | n in Numbers(log, batch)
      ensures n < log.next
      ensures Proves(Witness(batch, step.feed, step.from, step.trace, AsRead(log.records[n])), encode)
      ensures Witness(batch, step.feed, step.from, step.trace, AsRead(log.records[n])).data == log.records[n].data
    {
      NumbersBelow(p.spool, n);
      WitnessProves(p.read, step.count, step.feed, step.from, step.trace, AsRead(log.records[n]), encode);
      WitnessData(batch, step.feed, step.from, step.trace, AsRead(log.records[n]));
    }
  }

  lemma WitnessData(batch: seq<SpoolRecord>, feed: D.Feed, from: nat, trace: seq<D.Event>, r: SpoolRecord)
    requires r in batch
    ensures Witness(batch, feed, from, trace, r).data == r.data
  {
  }

  lemma StepProves(p: Pipe, step: Step, encode: Encoder)
    requires Inv(p) && Proved(p, encode) && Enabled(p, step, encode)
    ensures Proved(Apply(p, step, encode), encode)
  {
    hide Inv, S.Apply, Proves, Readable, Pending, R.CutAllowed, Shipped;
    match step
    case Spool(st) => RecordsPersist(p.spool, st);
    case Confirm(io) => RecordsPersist(p.spool, S.Ack(p.reach.value, io));
    case Ship(_, _, _, _) => ShipProves(p, step, encode);
    case Read(_) =>
  }

  ghost predicate Runs(p: Pipe, steps: seq<Step>, encode: Encoder)
    decreases |steps|
  {
    steps == [] || (Enabled(p, steps[0], encode) && Runs(Apply(p, steps[0], encode), steps[1..], encode))
  }

  ghost function Exec(p: Pipe, steps: seq<Step>, encode: Encoder): Pipe
    requires Runs(p, steps, encode)
    decreases |steps|
  {
    if steps == [] then p else Exec(Apply(p, steps[0], encode), steps[1..], encode)
  }

  lemma {:induction false} RunKeeps(p: Pipe, steps: seq<Step>, encode: Encoder)
    requires Inv(p) && Proved(p, encode) && Runs(p, steps, encode)
    ensures Inv(Exec(p, steps, encode)) && Proved(Exec(p, steps, encode), encode)
    decreases |steps|
  {
    hide Inv, Enabled, Apply, Proved;
    if steps != [] {
      StepKeeps(p, steps[0], encode);
      StepProves(p, steps[0], encode);
      RunKeeps(Apply(p, steps[0], encode), steps[1..], encode);
    }
  }

  /**
   From append to collector: whatever is interleaved and whenever it crashes, a record
   whose Append succeeded is still durably spooled, or a forwarder's trace shows that
   the collector accepted it, that it was set aside as invalid, or that it cannot be read.
   */
  lemma AcceptedIsShippedOrRetained(steps: seq<Step>, encode: Encoder)
    requires Runs(START, steps, encode)
    ensures var p := Exec(START, steps, encode);
            forall n :: n in p.spool.log.accepted ==>
              || R.Retained(p.spool, p.spool.log.accepted[n])
              || (n in p.dealt && p.dealt[n].data == p.spool.log.accepted[n].data && Proves(p.dealt[n], encode))
  {
    hide R.Retained, S.Inv, Proves;
    R.EmptyIsGood();
    RunKeeps(START, steps, encode);
    var p := Exec(START, steps, encode);
    var s := p.spool;
    forall n | n in s.log.accepted && !R.Retained(s, s.log.accepted[n])
      ensures n in p.dealt && p.dealt[n].data == s.log.accepted[n].data && Proves(p.dealt[n], encode)
    {
      R.AcceptedRetained(s, n);
      AcceptedIsRecord(s, n);
    }
  }

  lemma AcceptedIsRecord(s: S.System, n: nat)
    requires S.Inv(s) && n in s.log.accepted
    ensures n in s.log.records && s.log.records[n] == s.log.accepted[n]
  {
  }
}
