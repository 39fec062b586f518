/**
 Rejected guest events: which failed output writes are remembered and retried,
 how many bytes they hold, and when output counts as healthy again.
 */
module OutputHealth {

  const MAX_REJECTED_EVENTS: nat := 4096
  const MAX_REJECTED_BYTES: nat := 64 * 1024 * 1024

  /** A guest event's identity: VM, boot and sequence digest. */
  type Key = nat

  /** One remembered rejection; `size` is the encoded copy's length, 0 when none was kept. */
  datatype Rejected = Rejected(version: nat, size: nat, inflight: bool)

  datatype Sink = Sink(
    failing: bool,
    failures: nat,
    rejected: map<Key, Rejected>,
    rejectedBytes: int,
    overflow: bool)

  const FRESH := Sink(false, 0, map[], 0, false)

  /** What a retry in progress holds; `version` identifies the record it was started for. */
  datatype Ticket = Ticket(key: Key, version: nat, size: nat, before: nat)

  // Sections under the mutex.

  function Release(s: Sink, record: Rejected): Sink {
    if record.inflight then s else s.(rejectedBytes := s.rejectedBytes - record.size)
  }

  function Reject(s: Sink, key: Key, size: nat): Sink {
    if key !in s.rejected && |s.rejected| >= MAX_REJECTED_EVENTS then s.(overflow := true)
    else
      var s1 := if key in s.rejected then Release(s, s.rejected[key]) else s;
      var lost := size == 0 || size > MAX_REJECTED_BYTES - s1.rejectedBytes;
      var kept := if lost then 0 else size;
      s1.(overflow := s1.overflow || lost,
          rejected := s1.rejected[key := Rejected(s.failures, kept, false)],
          rejectedBytes := s1.rejectedBytes + kept)
  }

  function Accept(s: Sink, before: nat, key: Key, guest: bool): Sink {
    var s1 :=
      if guest && key in s.rejected && s.rejected[key].version <= before
      then Release(s, s.rejected[key]).(rejected := s.rejected - {key})
      else s;
    if before == s1.failures && |s1.rejected| == 0 then s1.(failing := false) else s1
  }

  /** Outcome of a write or, with `acceptedWrite` false, of a flush. */
  function Record(s: Sink, failed: bool, acceptedWrite: bool, before: nat, key: Key, guest: bool, size: nat): Sink {
    if failed then
      var s1 := s.(failures := s.failures + 1, failing := true);
      if guest then Reject(s1, key, size) else s1
    else if acceptedWrite then Accept(s, before, key, guest)
    else s
  }

  predicate CanRetain(s: Sink, key: Key) {
    if key in s.rejected then
      s.rejectedBytes - (if s.rejected[key].inflight then 0 else s.rejected[key].size) < MAX_REJECTED_BYTES
    else |s.rejected| < MAX_REJECTED_EVENTS && s.rejectedBytes < MAX_REJECTED_BYTES
  }

  predicate MayRetry(s: Sink, key: Key, version: nat) {
    key in s.rejected && s.rejected[key].version == version && !s.rejected[key].inflight
  }

  function BeginRetry(s: Sink, key: Key): (Sink, Ticket)
    requires key in s.rejected
  {
    var record := s.rejected[key];
    (s.(rejected := s.rejected[key := record.(inflight := true)]), Ticket(key, record.version, record.size, s.failures))
  }

  /** The ticket's record is still the one remembered for its key. */
  predicate Current(s: Sink, t: Ticket) {
    t.key in s.rejected && s.rejected[t.key].version == t.version
  }

  function EndRetry(s: Sink, t: Ticket, failed: bool): Sink {
    if !Current(s, t) then s.(rejectedBytes := s.rejectedBytes - t.size)
    else
      var s1 := s.(rejected := s.rejected[t.key := s.rejected[t.key].(inflight := false)]);
      Record(s1, failed, true, t.before, t.key, true, t.size)
  }

  predicate Healthy(s: Sink) {
    !s.overflow && !s.failing
  }

  // Interleavings of live writes, flushes and the retry worker.

  /** `began` is the number of outcomes there had been when the write began. */
  datatype Write = Write(key: Key, guest: bool, before: nat, began: nat)

  datatype Kind = Guest(key: Key) | Host | Flushed | Retried(key: Key, rejection: nat)

  /** One outcome: of what, with `began` outcomes before it began. A retry names the rejection it retries. */
  datatype Outcome = Outcome(kind: Kind, began: nat, failed: bool)

  /**
   Every outcome in order, whatever became of it. `counts[i]` is the failure count
   after i outcomes; `latest` is the place of each key's latest recorded rejection.
   */
  datatype History = History(trace: seq<Outcome>, counts: seq<nat>, latest: map<Key, nat>)

  datatype System = System(sink: Sink, writes: map<nat, Write>, retry: Retry, log: History)

  datatype Retry = Idle | Retrying(ticket: Ticket, began: nat, rejection: nat)

  const START := System(FRESH, map[], Idle, History([], [0], map[]))

  datatype Step =
    | StartWrite(id: nat, key: Key, guest: bool)
    | FinishWrite(id: nat, failed: bool, size: nat)
    | Flush(failed: bool)
    | StartRetry(key: Key, version: nat)
    | FinishRetry(failed: bool)

  predicate Enabled(s: System, step: Step) {
    match step
    case StartWrite(id, _, _) => id !in s.writes
    case FinishWrite(id, _, _) => id in s.writes
    case Flush(_) => true
    case StartRetry(key, version) => s.retry.Idle? && MayRetry(s.sink, key, version)
    case FinishRetry(_) => s.retry.Retrying?
  }

  /** `counted` says whether the outcome raised the failure count, to `failures`. */
  function Noted(log: History, o: Outcome, counted: bool, failures: nat): History {
    History(log.trace + [o], log.counts + [failures],
            if counted && (o.kind.Guest? || o.kind.Retried?) then log.latest[o.kind.key := |log.trace|] else log.latest)
  }

  function Apply(s: System, step: Step): System
    requires Enabled(s, step)
  {
    match step
    case StartWrite(id, key, guest) =>
      s.(writes := s.writes[id := Write(key, guest, s.sink.failures, |s.log.trace|)])
    case FinishWrite(id, failed, size) =>
      var w := s.writes[id];
      var sink := Record(s.sink, failed, true, w.before, w.key, w.guest, size);
      System(sink, s.writes - {id}, s.retry,
             Noted(s.log, Outcome(if w.guest then Guest(w.key) else Host, w.began, failed), failed, sink.failures))
    case Flush(failed) =>
      var sink := Record(s.sink, failed, false, 0, 0, false, 0);
      s.(sink := sink, log := Noted(s.log, Outcome(Flushed, |s.log.trace|, failed), failed, sink.failures))
    case StartRetry(key, _) =>
      var (sink, ticket) := BeginRetry(s.sink, key);
      s.(sink := sink,
         retry := Retrying(ticket, |s.log.trace|, if key in s.log.latest then s.log.latest[key] else 0))
    case FinishRetry(failed) =>
      var t := s.retry.ticket;
      var sink := EndRetry(s.sink, t, failed);
      System(sink, s.writes, Idle,
             Noted(s.log, Outcome(Retried(t.key, s.retry.rejection), s.retry.began, failed),
                   failed && Current(s.sink, t), sink.failures))
  }

  // Bytes of a set of records.

  ghost function Bytes(m: map<Key, Rejected>): nat
    decreases |m|
  {
    if m == map[] then 0
    else
      var k :| k in m;
      m[k].size + Bytes(m - {k})
  }

  lemma {:induction false} BytesWithout(m: map<Key, Rejected>, k: Key)
    requires k in m
    ensures Bytes(m) == m[k].size + Bytes(m - {k})
    decreases |m|
  {
    var c :| c in m && Bytes(m) == m[c].size + Bytes(m - {c});
    if c != k {
      BytesWithout(m - {c}, k);
      BytesWithout(m - {k}, c);
      assert (m - {c}) - {k} == (m - {k}) - {c};
    }
  }

  lemma BytesWith(m: map<Key, Rejected>, k: Key, record: Rejected)
    ensures Bytes(m[k := record]) == record.size + Bytes(m - {k})
  {
    BytesWithout(m[k := record], k);
    assert m[k := record] - {k} == m - {k};
  }

  // The invariant.

  predicate Superseded(s: System) {
    s.retry.Retrying? && !Current(s.sink, s.retry.ticket)
  }

  /** Bytes of a record that a retry still holds although it is no longer remembered. */
  function Orphan(s: System): nat {
    if Superseded(s) then s.retry.ticket.size else 0
  }

  ghost function HeldBytes(s: System): nat {
    Bytes(s.sink.rejected) + Orphan(s)
  }

  ghost predicate BytesExact(s: System) {
    s.sink.rejectedBytes == HeldBytes(s) && s.sink.rejectedBytes <= MAX_REJECTED_BYTES
  }

  ghost predicate VersionsSound(s: System) {
    && (forall k :: k in s.sink.rejected ==> s.sink.rejected[k].version <= s.sink.failures)
    && (forall k, j :: k in s.sink.rejected && j in s.sink.rejected && k != j ==>
          s.sink.rejected[k].version != s.sink.rejected[j].version)
    && (forall k :: k in s.sink.rejected ==>
          (s.sink.rejected[k].inflight <==>
             s.retry.Retrying? && s.retry.ticket.key == k && s.retry.ticket.version == s.sink.rejected[k].version))
    && (forall k :: k in s.sink.rejected && s.sink.rejected[k].inflight ==>
          s.retry.Retrying? && s.retry.ticket.size == s.sink.rejected[k].size)
    && (s.retry.Retrying? ==>
          s.retry.ticket.version <= s.retry.ticket.before <= s.sink.failures)
    && |s.sink.rejected| <= MAX_REJECTED_EVENTS
  }

  ghost predicate Inv(s: System) {
    BytesExact(s) && VersionsSound(s)
  }

  // Preservation.

  /** The bookkeeping does not depend on the history. */
  lemma Alike(s: System, s1: System)
    requires Inv(s) && s.sink == s1.sink && s.retry == s1.retry
    ensures Inv(s1)
  {
    SupersededSame(s, s1);
  }

  lemma RejectKeepsBytes(s: Sink, key: Key, size: nat, orphan: nat, held: nat)
    requires s.rejectedBytes == Bytes(s.rejected) + orphan && s.rejectedBytes <= MAX_REJECTED_BYTES
    requires held == if key in s.rejected && s.rejected[key].inflight then s.rejected[key].size else 0
    requires |s.rejected| <= MAX_REJECTED_EVENTS
    requires key in s.rejected || |s.rejected| < MAX_REJECTED_EVENTS
    ensures var s1 := Reject(s, key, size);
            && s1.rejectedBytes == Bytes(s1.rejected) + orphan + held
            && s1.rejectedBytes <= MAX_REJECTED_BYTES
            && |s1.rejected| <= MAX_REJECTED_EVENTS
  {
    hide Bytes;
    var s1 := Reject(s, key, size);
    UpdatedSize(s.rejected, key, s1.rejected[key]);
    BytesWith(s.rejected, key, s1.rejected[key]);
    if key in s.rejected {
      BytesWithout(s.rejected, key);
    } else {
      assert s.rejected - {key} == s.rejected;
    }
  }

  lemma UpdatedSize(m: map<Key, Rejected>, key: Key, record: Rejected)
    ensures |m[key := record]| == if key in m then |m| else |m| + 1
  {
    assert m[key := record].Keys == m.Keys + {key};
    if key in m {
      SameSize(m[key := record], m);
    } else {
      assert |m.Keys + {key}| == |m.Keys| + 1;
      assert |m[key := record]| == |m[key := record].Keys| && |m| == |m.Keys|;
    }
  }

  lemma SameSize(a: map<Key, Rejected>, b: map<Key, Rejected>)
    requires a.Keys == b.Keys
    ensures |a| == |b|
  {
    assert |a| == |a.Keys| && |b| == |b.Keys|;
  }

  lemma AcceptKeepsBytes(s: Sink, before: nat, key: Key, guest: bool, orphan: nat)
    requires s.rejectedBytes == Bytes(s.rejected) + orphan && s.rejectedBytes <= MAX_REJECTED_BYTES
    requires |s.rejected| <= MAX_REJECTED_EVENTS
    ensures var s1 := Accept(s, before, key, guest);
            var held := if guest && key in s.rejected && s.rejected[key].version <= before && s.rejected[key].inflight
                        then s.rejected[key].size else 0;
            && s1.rejectedBytes == Bytes(s1.rejected) + orphan + held
            && s1.rejectedBytes <= MAX_REJECTED_BYTES
            && |s1.rejected| <= MAX_REJECTED_EVENTS
  {
    if guest && key in s.rejected && s.rejected[key].version <= before {
      BytesWithout(s.rejected, key);
      assert (s.rejected - {key}).Keys == s.rejected.Keys - {key};
    }
  }

  ghost function AfterFailure(s: System, key: Key, size: nat): System {
    s.(sink := Record(s.sink, true, true, 0, key, true, size))
  }

  /** The record a rejection replaces was in flight: its retry is superseded from then on. */
  lemma FailureSupersedes(s: System, key: Key, size: nat)
    requires VersionsSound(s) && (key in s.sink.rejected || |s.sink.rejected| < MAX_REJECTED_EVENTS)
    ensures Superseded(AfterFailure(s, key, size)) <==>
              Superseded(s) || (key in s.sink.rejected && s.sink.rejected[key].inflight)
    ensures key in s.sink.rejected && s.sink.rejected[key].inflight ==>
              s.retry.Retrying? && !Superseded(s) && s.retry.ticket.size == s.sink.rejected[key].size
  {
    hide Bytes;
  }

  lemma FailureKeepsBytes(s: System, key: Key, size: nat)
    requires BytesExact(s) && VersionsSound(s)
    ensures BytesExact(AfterFailure(s, key, size)) && |AfterFailure(s, key, size).sink.rejected| <= MAX_REJECTED_EVENTS
  {
    hide Superseded, Bytes;
    var s1 := s.sink.(failures := s.sink.failures + 1, failing := true);
    if key in s1.rejected || |s1.rejected| < MAX_REJECTED_EVENTS {
      hide VersionsSound, Reject;
      FailureSupersedes(s, key, size);
      var orphan := Orphan(s);
      var held := if key in s1.rejected && s1.rejected[key].inflight then s1.rejected[key].size else 0;
      RejectKeepsBytes(s1, key, size, orphan, held);
    } else {
      assert AfterFailure(s, key, size).sink.rejected == s.sink.rejected;
      SupersededSame(s, AfterFailure(s, key, size));
    }
  }

  lemma SupersededSame(s: System, s1: System)
    requires s.retry == s1.retry && s.sink.rejected == s1.sink.rejected
    ensures Superseded(s1) == Superseded(s)
  {
  }

  lemma RejectShape(s: Sink, key: Key, size: nat)
    ensures var s1 := Reject(s, key, size);
            && s1.failures == s.failures && s1.failing == s.failing
            && (s1.rejected == s.rejected
                || exists kept: nat :: s1.rejected == s.rejected[key := Rejected(s.failures, kept, false)])
  {
    var s1 := Reject(s, key, size);
    if key in s.rejected || |s.rejected| < MAX_REJECTED_EVENTS {
      assert s1.rejected == s.rejected[key := Rejected(s.failures, s1.rejected[key].size, false)];
    }
  }

  lemma FailureKeepsVersions(s: System, key: Key, size: nat)
    requires VersionsSound(s) && |AfterFailure(s, key, size).sink.rejected| <= MAX_REJECTED_EVENTS
    ensures VersionsSound(AfterFailure(s, key, size))
  {
    hide Reject;
    RejectShape(s.sink.(failures := s.sink.failures + 1, failing := true), key, size);
  }

  lemma FailureKeeps(s: System, key: Key, size: nat)
    requires Inv(s)
    ensures Inv(AfterFailure(s, key, size))
  {
    FailureKeepsBytes(s, key, size);
    FailureKeepsVersions(s, key, size);
  }

  ghost function AfterSuccess(s: System, before: nat, key: Key, guest: bool): System {
    s.(sink := Accept(s.sink, before, key, guest))
  }

  lemma SuccessKeepsBytes(s: System, before: nat, key: Key, guest: bool)
    requires BytesExact(s) && VersionsSound(s)
    ensures BytesExact(AfterSuccess(s, before, key, guest))
    ensures |AfterSuccess(s, before, key, guest).sink.rejected| <= MAX_REJECTED_EVENTS
  {
    var s2 := AfterSuccess(s, before, key, guest);
    var orphan := Orphan(s);
    AcceptKeepsBytes(s.sink, before, key, guest, orphan);
    var cleared := guest && key in s.sink.rejected && s.sink.rejected[key].version <= before;
    assert s2.sink.rejected == if cleared then s.sink.rejected - {key} else s.sink.rejected;
    assert Superseded(s2) <==> Superseded(s) || (cleared && s.sink.rejected[key].inflight);
  }

  lemma SuccessKeeps(s: System, before: nat, key: Key, guest: bool)
    requires Inv(s)
    ensures Inv(AfterSuccess(s, before, key, guest))
  {
    SuccessKeepsBytes(s, before, key, guest);
  }

  /** The retried record as it is when its write has ended and nothing superseded it. */
  ghost function Landed(s: System): System
    requires s.retry.Retrying? && Current(s.sink, s.retry.ticket)
  {
    var k := s.retry.ticket.key;
    s.(sink := s.sink.(rejected := s.sink.rejected[k := s.sink.rejected[k].(inflight := false)]), retry := Idle)
  }

  lemma LandedKeeps(s: System)
    requires Inv(s) && s.retry.Retrying? && Current(s.sink, s.retry.ticket)
    ensures Inv(Landed(s))
  {
    hide Bytes;
    var k := s.retry.ticket.key;
    var s1 := Landed(s);
    BytesWithout(s.sink.rejected, k);
    BytesWith(s.sink.rejected, k, s1.sink.rejected[k]);
    assert s1.sink.rejected.Keys == s.sink.rejected.Keys;
    SameSize(s1.sink.rejected, s.sink.rejected);
  }

  lemma StartRetryKeeps(s: System, key: Key, version: nat)
    requires Inv(s) && s.retry.Idle? && MayRetry(s.sink, key, version)
    ensures Inv(Apply(s, StartRetry(key, version)))
  {
    hide Bytes;
    var s1 := Apply(s, StartRetry(key, version));
    BytesWithout(s.sink.rejected, key);
    BytesWith(s.sink.rejected, key, s1.sink.rejected[key]);
    assert s1.sink.rejected.Keys == s.sink.rejected.Keys;
    SameSize(s1.sink.rejected, s.sink.rejected);
  }

  lemma FinishRetryKeeps(s: System, failed: bool)
    requires Inv(s) && s.retry.Retrying?
    ensures Inv(Apply(s, FinishRetry(failed)))
  {
    hide Inv, Record, Noted, Accept;
    var t := s.retry.ticket;
    if !Current(s.sink, t) {
      SupersededKeeps(s, failed);
    } else {
      LandedKeeps(s);
      if failed {
        FailureKeeps(Landed(s), t.key, t.size);
        RetryFailed(s);
        Alike(AfterFailure(Landed(s), t.key, t.size), Apply(s, FinishRetry(true)));
      } else {
        SuccessKeeps(Landed(s), t.before, t.key, true);
        RetrySucceeded(s);
        Alike(AfterSuccess(Landed(s), t.before, t.key, true), Apply(s, FinishRetry(false)));
      }
    }
  }

  lemma RetryFailed(s: System)
    requires s.retry.Retrying? && Current(s.sink, s.retry.ticket)
    ensures Apply(s, FinishRetry(true)).sink == AfterFailure(Landed(s), s.retry.ticket.key, s.retry.ticket.size).sink
  {
    hide Reject;
  }

  lemma RetrySucceeded(s: System)
    requires s.retry.Retrying? && Current(s.sink, s.retry.ticket)
    ensures var t := s.retry.ticket;
            Apply(s, FinishRetry(false)).sink == AfterSuccess(Landed(s), t.before, t.key, true).sink
  {
    hide Accept;
  }

  lemma SupersededKeeps(s: System, failed: bool)
    requires Inv(s) && Superseded(s)
    ensures Inv(Apply(s, FinishRetry(failed)))
  {
    hide Bytes;
  }

  lemma HostFailureKeeps(s: System)
    requires Inv(s)
    ensures Inv(s.(sink := s.sink.(failures := s.sink.failures + 1, failing := true)))
  {
    var s1 := s.(sink := s.sink.(failures := s.sink.failures + 1, failing := true));
    assert Superseded(s1) <==> Superseded(s);
  }

  lemma FinishWriteKeeps(s: System, id: nat, failed: bool, size: nat)
    requires Inv(s) && id in s.writes
    ensures Inv(Apply(s, FinishWrite(id, failed, size)))
  {
    var w := s.writes[id];
    var s0 := s.(writes := s.writes - {id});
    assert Inv(s0) by { assert Superseded(s0) <==> Superseded(s); }
    var s1 := Apply(s, FinishWrite(id, failed, size));
    if !failed {
      SuccessKeeps(s0, w.before, w.key, w.guest);
      Alike(AfterSuccess(s0, w.before, w.key, w.guest), s1);
    } else if w.guest {
      FailureKeeps(s0, w.key, size);
      Alike(AfterFailure(s0, w.key, size), s1);
    } else {
      HostFailureKeeps(s0);
      Alike(s0.(sink := s1.sink), s1);
    }
  }

  lemma StepKeeps(s: System, step: Step)
    requires Inv(s) && Enabled(s, step)
    ensures Inv(Apply(s, step))
  {
    match step
    case StartWrite(id, key, guest) =>
      assert Superseded(Apply(s, step)) <==> Superseded(s);
    case FinishWrite(id, failed, size) => FinishWriteKeeps(s, id, failed, size);
    case Flush(failed) =>
      if failed { HostFailureKeeps(s); }
      Alike(s.(sink := Apply(s, step).sink), Apply(s, step));
    case StartRetry(key, version) => StartRetryKeeps(s, key, version);
    case FinishRetry(failed) => FinishRetryKeeps(s, failed);
  }

  // Whole runs.

  ghost predicate Runs(s: System, steps: seq<Step>)
    decreases |steps|
  {
    steps == [] || (Enabled(s, steps[0]) && Runs(Apply(s, steps[0]), steps[1..]))
  }

  ghost function Exec(s: System, steps: seq<Step>): System
    requires Runs(s, steps)
    decreases |steps|
  {
    if steps == [] then s else Exec(Apply(s, steps[0]), steps[1..])
  }

  lemma {:induction false} RunKeeps(s: System, steps: seq<Step>)
    requires Inv(s) && Runs(s, steps)
    ensures Inv(Exec(s, steps))
    decreases |steps|
  {
    hide Inv, Enabled, Apply;
    if steps != [] {
      StepKeeps(s, steps[0]);
      RunKeeps(Apply(s, steps[0]), steps[1..]);
    }
  }

  /**
   In every interleaving the byte counter is exact -- remembered records plus a
   superseded one still in flight -- and both bounds hold; versions are distinct.
   */
  lemma BookkeepingExact(steps: seq<Step>)
    requires Runs(START, steps)
    ensures var s := Exec(START, steps);
            && s.sink.rejectedBytes == HeldBytes(s) <= MAX_REJECTED_BYTES
            && |s.sink.rejected| <= MAX_REJECTED_EVENTS
            && (forall k, j :: k in s.sink.rejected && j in s.sink.rejected && k != j ==>
                  s.sink.rejected[k].version != s.sink.rejected[j].version)
  {
    assert Inv(START);
    RunKeeps(START, steps);
  }

  /** Overflow is for good, and a write that began before the last failure never clears it. */
  lemma StepNeverHides(s: System, step: Step)
    requires Enabled(s, step)
    ensures s.sink.overflow ==> Apply(s, step).sink.overflow
    ensures step.FinishWrite? && !step.failed && s.writes[step.id].before < s.sink.failures ==>
              Apply(s, step).sink.failing == s.sink.failing
    ensures step.FinishRetry? && !step.failed && s.retry.ticket.before < s.sink.failures ==>
              Apply(s, step).sink.failing == s.sink.failing
  {
    hide Record, Noted;
    match step
    case StartWrite(_, _, _) =>
    case FinishWrite(id, failed, size) =>
      var w := s.writes[id];
      RecordNeverHides(s.sink, failed, true, w.before, w.key, w.guest, size);
    case Flush(failed) => RecordNeverHides(s.sink, failed, false, 0, 0, false, 0);
    case StartRetry(_, _) =>
    case FinishRetry(failed) =>
      var t := s.retry.ticket;
      if Current(s.sink, t) {
        RecordNeverHides(Landed(s).sink, failed, true, t.before, t.key, true, t.size);
      }
  }

  lemma RecordNeverHides(s: Sink, failed: bool, write: bool, before: nat, key: Key, guest: bool, size: nat)
    ensures s.overflow ==> Record(s, failed, write, before, key, guest, size).overflow
    ensures !failed && before < s.failures ==> Record(s, failed, write, before, key, guest, size).failing == s.failing
  {
  }

  lemma {:induction false} OverflowStays(s: System, steps: seq<Step>)
    requires Runs(s, steps) && s.sink.overflow
    ensures Exec(s, steps).sink.overflow
    decreases |steps|
  {
    if steps != [] {
      StepNeverHides(s, steps[0]);
      OverflowStays(Apply(s, steps[0]), steps[1..]);
    }
  }

  lemma AcceptForgets(s: Sink, key: Key, guest: bool)
    requires key in s.rejected ==> guest && s.rejected[key].version <= s.failures
    requires guest ==> key in s.rejected
    ensures var s1 := Accept(s, s.failures, key, guest);
            s1.rejected == s.rejected - {key} && s1.overflow == s.overflow && (s1.rejected == map[] ==> !s1.failing)
  {
  }

  /** One accepted write of a remembered key forgets exactly that key. */
  lemma AcceptedForgets(s: System, id: nat, key: Key, guest: bool)
    requires Inv(s) && !s.sink.overflow && id !in s.writes && (guest <==> key in s.sink.rejected)
    ensures var s2 := Apply(Apply(s, StartWrite(id, key, guest)), FinishWrite(id, false, 0));
            && s2.sink.rejected == s.sink.rejected - {key} && !s2.sink.overflow && id !in s2.writes
            && (s2.sink.rejected == map[] ==> Healthy(s2.sink))
  {
    AcceptForgets(s.sink, key, guest);
    hide Inv, Accept, Noted;
  }

  /** Short of overflow, output can always become healthy again: accept each remembered key once more. */
  lemma {:induction false} RecoveryPossible(s: System, id: nat) returns (steps: seq<Step>)
    requires Inv(s) && !s.sink.overflow && id !in s.writes
    ensures Runs(s, steps) && Healthy(Exec(s, steps).sink)
    decreases |s.sink.rejected|
  {
    hide Inv, Healthy;
    var guest := s.sink.rejected != map[];
    var key := 0;
    if guest {
      key :| key in s.sink.rejected;
    }
    var first, second := StartWrite(id, key, guest), FinishWrite(id, false, 0);
    AcceptedForgets(s, id, key, guest);
    StepKeeps(s, first);
    StepKeeps(Apply(s, first), second);
    var s2 := Apply(Apply(s, first), second);
    var rest := [];
    if s2.sink.rejected != map[] {
      Shrinks(s.sink.rejected, key);
      rest := RecoveryPossible(s2, id);
    }
    steps := [first, second] + rest;
    TwoSteps(s, first, second, rest);
  }

  lemma Shrinks(m: map<Key, Rejected>, key: Key)
    requires key in m
    ensures |m - {key}| < |m|
  {
    assert (m - {key}).Keys == m.Keys - {key};
    assert |m - {key}| == |(m - {key}).Keys| && |m| == |m.Keys|;
  }

  lemma TwoSteps(s: System, first: Step, second: Step, rest: seq<Step>)
    requires Enabled(s, first) && Enabled(Apply(s, first), second)
    requires Runs(Apply(Apply(s, first), second), rest)
    ensures var steps := [first, second] + rest;
            Runs(s, steps) && Exec(s, steps) == Exec(Apply(Apply(s, first), second), rest)
  {
    hide Enabled, Apply;
    var steps := [first, second] + rest;
    assert steps[1..] == [second] + rest && steps[1..][1..] == rest;
  }

  // No starvation among remembered records.

  const RETRY_BATCH: nat := 64

  /** The records a pass would try before one of version `v`. */
  function Ahead(m: map<Key, Rejected>, v: nat): set<Key> {
    set k | k in m && m[k].size != 0 && m[k].version < v
  }

  /**
   While a remembered record keeps its version, nothing ever moves ahead of it, and
   every record ahead of it that is retried leaves its place: nothing starves.
   */
  lemma NothingMovesAhead(s: System, step: Step, key: Key)
    requires Inv(s) && Enabled(s, step)
    requires key in s.sink.rejected && key in Apply(s, step).sink.rejected
    requires Apply(s, step).sink.rejected[key].version == s.sink.rejected[key].version
    ensures var v := s.sink.rejected[key].version;
            && Ahead(Apply(s, step).sink.rejected, v) <= Ahead(s.sink.rejected, v)
            && (step.FinishRetry? && Current(s.sink, s.retry.ticket) ==>
                  s.retry.ticket.key !in Ahead(Apply(s, step).sink.rejected, v))
  {
    hide Inv, Noted, Record, Ahead;
    var v := s.sink.rejected[key].version;
    InvVersions(s, key);
    match step
    case StartWrite(_, _, _) =>
    case FinishWrite(id, failed, size) =>
      var w := s.writes[id];
      RecordAddsBehind(s.sink, failed, true, w.before, w.key, w.guest, size, v);
    case Flush(failed) => RecordAddsBehind(s.sink, failed, false, 0, 0, false, 0, v);
    case StartRetry(k, _) => FlagsKeepPlaces(s.sink.rejected, k, s.sink.rejected[k].(inflight := true), v);
    case FinishRetry(failed) =>
      var t := s.retry.ticket;
      if Current(s.sink, t) {
        FlagsKeepPlaces(s.sink.rejected, t.key, s.sink.rejected[t.key].(inflight := false), v);
        RecordAddsBehind(Landed(s).sink, failed, true, t.before, t.key, true, t.size, v);
        RetryLeavesPlace(Landed(s).sink, t, failed, v);
      }
  }

  lemma InvVersions(s: System, key: Key)
    requires Inv(s) && key in s.sink.rejected
    ensures s.sink.rejected[key].version <= s.sink.failures
    ensures s.retry.Retrying? ==> s.retry.ticket.version <= s.retry.ticket.before
  {
  }

  lemma FlagsKeepPlaces(m: map<Key, Rejected>, k: Key, record: Rejected, v: nat)
    requires k in m && record == m[k].(inflight := record.inflight)
    ensures Ahead(m[k := record], v) == Ahead(m, v)
  {
  }

  lemma RecordAddsBehind(s: Sink, failed: bool, write: bool, before: nat, key: Key, guest: bool, size: nat, v: nat)
    requires v <= s.failures
    ensures Ahead(Record(s, failed, write, before, key, guest, size).rejected, v) <= Ahead(s.rejected, v)
  {
  }

  lemma RetryLeavesPlace(s: Sink, t: Ticket, failed: bool, v: nat)
    requires Current(s, t) && t.version <= t.before && v <= s.failures
    ensures t.key !in Ahead(Record(s, failed, true, t.before, t.key, true, t.size).rejected, v)
  {
  }

  /** Skipping the encoding when nothing could be kept changes no outcome. */
  lemma SkippedEncodingChangesNothing(s: Sink, key: Key, before: nat, size: nat)
    requires !CanRetain(s, key)
    ensures Record(s, true, true, before, key, true, size) == Record(s, true, true, before, key, true, 0)
  {
  }
}
