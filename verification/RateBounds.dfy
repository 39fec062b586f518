/**
 How many failed logins of one address, or of one user at an address since the last
 success, a span of time can hold, and what earns a lockout, when no section's reading is more than `skew` behind an earlier one's.
 */
module RateBounds {
  import opened Framing
  import opened RateLimit

  // The recorded failures a bucket still holds.

  /** The failures at the given places of the log, in order. */
  function Select(log: seq<int>, live: set<nat>): seq<int>
    decreases |log|
  {
    if log == [] then []
    else Select(log[..|log| - 1], live) + if |log| - 1 in live then [log[|log| - 1]] else []
  }

  predicate Within(live: set<nat>, n: nat) {
    forall i :: i in live ==> i < n
  }

  function Kept(log: seq<int>, live: set<nat>, cutoff: int): set<nat> {
    set i | i in live && i < |log| && log[i] >= cutoff
  }

  lemma {:induction false} SelectSize(log: seq<int>, live: set<nat>)
    requires Within(live, |log|)
    ensures |Select(log, live)| == |live|
    decreases |log|
  {
    if log == [] {
      assert live == {};
    } else {
      var k := |log| - 1;
      SelectOther(log[..k], live, k);
      SelectSize(log[..k], live - {k});
    }
  }

  lemma {:induction false} SelectOther(log: seq<int>, live: set<nat>, k: nat)
    requires |log| <= k
    ensures Select(log, live) == Select(log, live - {k}) == Select(log, live + {k})
    decreases |log|
  {
    if log != [] {
      SelectOther(log[..|log| - 1], live, k);
    }
  }

  lemma SelectLonger(log: seq<int>, live: set<nat>, now: int)
    requires Within(live, |log|)
    ensures Select(log + [now], live + {|log|}) == Select(log, live) + [now]
  {
    var all := log + [now];
    assert all[..|all| - 1] == log;
    SelectOther(log, live, |log|);
  }

  lemma {:induction false} SinceSelects(log: seq<int>, live: set<nat>, cutoff: int)
    ensures Since(Select(log, live), cutoff) == Select(log, Kept(log, live, cutoff))
    decreases |log|
  {
    if log != [] {
      var k := |log| - 1;
      var front, f := log[..k], Select(log, live);
      SinceSelects(front, live, cutoff);
      KeptFront(log, live, cutoff);
      if k in live {
        assert f[..|f| - 1] == Select(front, live);
      } else {
        assert f == Select(front, live);
      }
    }
  }

  lemma KeptFront(log: seq<int>, live: set<nat>, cutoff: int)
    requires log != []
    ensures var k := |log| - 1; Select(log[..k], Kept(log, live, cutoff)) == Select(log[..k], Kept(log[..k], live, cutoff))
  {
    var k := |log| - 1;
    var kept := Kept(log, live, cutoff);
    assert kept - {k} == Kept(log[..k], live, cutoff);
    SelectOther(log[..k], kept, k);
  }

  // How a bucket reflects the failures recorded so far.

  /** A failure at `t` is `length` behind every reading still to come once the latest is `at`. */
  predicate Past(t: int, at: int, length: int, skew: nat) {
    t + length + skew <= at
  }

  /** The bucket holds the failures at the places `live`; the others are past, or will be when the lockout ends. */
  ghost predicate Holds(c: Config, max: int, b: Bucket, log: seq<int>, live: set<nat>, length: int, peak: int, skew: nat) {
    && (forall i :: 0 <= i < |log| ==> log[i] <= peak)
    && match b.lockedUntil {
         case Some(until) => b.failures == [] && forall i :: 0 <= i < |log| ==> Past(log[i], until, length, skew)
         case None =>
           && Within(live, |log|) && |live| < max && b.failures == Select(log, live)
           && forall i: nat :: i < |log| && i !in live ==> Past(log[i], peak, length, skew)
       }
  }

  /** The longest span that readings out of order by `skew` leave bounded; nothing when not positive. */
  function Reach(c: Config, max: int, skew: nat): int {
    if max == 1 then c.lockout - skew
    else if c.lockout - 2 * skew <= c.window + 1 - skew then c.lockout - 2 * skew
    else c.window + 1 - skew
  }

  predicate Fits(c: Config, max: int, length: int, skew: nat) {
    max > 0 && length <= Reach(c, max, skew) && (max == 1 ==> length >= 0)
  }

  lemma PruneHolds(c: Config, max: int, b: Bucket, log: seq<int>, live: set<nat>, length: int, peak: int, skew: nat, now: int)
    returns (live1: set<nat>)
    requires Holds(c, max, b, log, live, length, peak, skew) && Fits(c, max, length, skew)
    ensures Holds(c, max, Prune(c, b, now), log, live1, length, Max(peak, now), skew)
    ensures b.lockedUntil.None? ==> live1 == Kept(log, live, now - c.window)
    ensures b.lockedUntil.Some? ==> live1 == {}
  {
    if b.lockedUntil.None? {
      live1 := Kept(log, live, now - c.window);
      SinceSelects(log, live, now - c.window);
      Smaller(live1, live);
      assert max == 1 ==> live == {};
    } else {
      live1 := {};
      SelectNothing(log);
    }
  }

  lemma Smaller<T>(a: set<T>, b: set<T>)
    requires a <= b
    ensures |a| <= |b|
  {
    assert b == a + (b - a);
  }

  lemma {:induction false} SelectNothing(log: seq<int>)
    ensures Select(log, {}) == []
    decreases |log|
  {
    if log != [] {
      SelectNothing(log[..|log| - 1]);
    }
  }

  lemma FailHolds(c: Config, max: int, b: Bucket, log: seq<int>, live: set<nat>, length: int, peak: int, skew: nat, now: int)
    returns (live1: set<nat>)
    requires Holds(c, max, b, log, live, length, peak, skew) && b.lockedUntil.None? && Fits(c, max, length, skew)
    requires peak - skew <= now <= peak
    ensures Holds(c, max, Fail(c, b, max, now), log + [now], live1, length, peak, skew)
  {
    SelectSize(log, live);
    SelectLonger(log, live, now);
    live1 := live + {|log|};
    assert |live1| == |live| + 1;
    if max == 1 {
      assert live == {};
    }
  }

  // The bound.

  /** Places of the recorded failures inside a half-open span. */
  function InSpan(log: seq<int>, from: int, length: int): set<nat> {
    set i: nat | i < |log| && from <= log[i] < from + length
  }

  ghost predicate Bounded(log: seq<int>, max: int, length: int) {
    forall from :: |InSpan(log, from, length)| <= max
  }

  /** Whatever shares a span with a new failure is still in the bucket. */
  lemma FailBounded(c: Config, max: int, b: Bucket, log: seq<int>, live: set<nat>, length: int, peak: int, skew: nat, now: int, from: int)
    requires Holds(c, max, b, log, live, length, peak, skew) && b.lockedUntil.None? && peak - skew <= now
    requires Bounded(log, max, length)
    ensures |InSpan(log + [now], from, length)| <= max
  {
    var was, both := InSpan(log, from, length), InSpan(log + [now], from, length);
    if from <= now < from + length {
      assert both == was + {|log|};
      forall i | i in was ensures i in live {
      }
      Smaller(was, live);
    } else {
      assert both == was;
    }
  }

  /** The log of the key after one more operation. */
  ghost function LogNext(c: Config, l: Limiter, op: Op, key: Key, log: seq<int>): seq<int> {
    if Clears(c, op, key) then [] else log + if Records(c, l, op, key) then [op.now] else []
  }

  lemma StepHolds(c: Config, l: Limiter, op: Op, key: Key, log: seq<int>, live: set<nat>, length: int, peak: int, skew: nat)
    returns (live1: set<nat>)
    requires Fits(c, Allowed(c, key), length, skew) && peak - skew <= Clock(op, peak)
    requires Holds(c, Allowed(c, key), BucketAt(l, key), log, live, length, peak, skew) && Bounded(log, Allowed(c, key), length)
    ensures var log1 := LogNext(c, l, op, key, log);
            && Holds(c, Allowed(c, key), BucketAt(Step(c, l, op, true).0, key), log1, live1, length, Max(peak, Clock(op, peak)), skew)
            && Bounded(log1, Allowed(c, key), length)
  {
    hide Step, Fail, Prune, Records, Clears, BucketAt, InSpan, Allowed;
    var max, b := Allowed(c, key), BucketAt(l, key);
    RecordsIsFailure(c, l, op, key);
    live1 := live;
    if Records(c, l, op, key) {
      hide Holds;
      var now := op.now;
      var kept := PruneHolds(c, max, b, log, live, length, peak, skew, now);
      RecordingStep(c, l, op, key);
      RecordsMeansUnlocked(c, l, op, key);
      forall from ensures |InSpan(log + [now], from, length)| <= max {
        FailBounded(c, max, Prune(c, b, now), log, kept, length, Max(peak, now), skew, now, from);
      }
      live1 := FailHolds(c, max, Prune(c, b, now), log, kept, length, Max(peak, now), skew, now);
    } else if Clears(c, op, key) {
      ClearingStep(c, l, op, key);
      IdleHolds(c, max, length, Max(peak, Clock(op, peak)), skew);
      live1 := {};
    } else {
      OtherStep(c, l, op, key);
      assert log + [] == log;
      if BucketAt(Step(c, l, op, true).0, key) != b {
        live1 := PruneHolds(c, max, b, log, live, length, peak, skew, op.now);
      } else {
        LaterHolds(c, max, b, log, live, length, peak, skew, Max(peak, Clock(op, peak)));
      }
    }
  }

  lemma LaterHolds(c: Config, max: int, b: Bucket, log: seq<int>, live: set<nat>, length: int, peak: int, skew: nat, later: int)
    requires Holds(c, max, b, log, live, length, peak, skew) && peak <= later
    ensures Holds(c, max, b, log, live, length, later, skew)
  {
  }

  function Peak(ops: seq<Op>, peak: int): int
    decreases |ops|
  {
    if ops == [] then peak else Peak(ops[1..], Max(peak, Clock(ops[0], peak)))
  }

  /** The log after a run that began with one. */
  ghost function LogFrom(c: Config, l: Limiter, ops: seq<Op>, key: Key, log: seq<int>): seq<int> {
    (if Cleared(c, ops, key) then [] else log) + Log(c, l, ops, key)
  }

  lemma LogSplits(c: Config, l: Limiter, ops: seq<Op>, key: Key, log: seq<int>)
    requires ops != []
    ensures LogFrom(c, l, ops, key, log) == LogFrom(c, Step(c, l, ops[0], true).0, ops[1..], key, LogNext(c, l, ops[0], key, log))
  {
    hide Step, Records, Clears;
    RecordsIsFailure(c, l, ops[0], key);
  }

  lemma {:induction false} RunHolds(c: Config, l: Limiter, ops: seq<Op>, key: Key, log: seq<int>,
                                    live: set<nat>, length: int, peak: int, skew: nat) returns (live1: set<nat>)
    requires Fits(c, Allowed(c, key), length, skew) && Skewed(ops, peak, skew)
    requires Holds(c, Allowed(c, key), BucketAt(l, key), log, live, length, peak, skew) && Bounded(log, Allowed(c, key), length)
    ensures Holds(c, Allowed(c, key), BucketAt(After(c, l, ops), key), LogFrom(c, l, ops, key, log), live1, length, Peak(ops, peak), skew)
    ensures Bounded(LogFrom(c, l, ops, key, log), Allowed(c, key), length)
    decreases |ops|
  {
    hide Holds, Step, LogNext, BucketAt, InSpan, Allowed;
    if ops == [] {
      assert LogFrom(c, l, ops, key, log) == log;
      live1 := live;
    } else {
      hide LogFrom;
      LogSplits(c, l, ops, key, log);
      var live0 := StepHolds(c, l, ops[0], key, log, live, length, peak, skew);
      live1 := RunHolds(c, Step(c, l, ops[0], true).0, ops[1..], key, LogNext(c, l, ops[0], key, log), live0, length,
                        Max(peak, Clock(ops[0], peak)), skew);
    }
  }

  lemma IdleHolds(c: Config, max: int, length: int, peak: int, skew: nat)
    requires max > 0
    ensures Holds(c, max, IDLE, [], {}, length, peak, skew) && Bounded([], max, length)
  {
    forall from ensures |InSpan([], from, length)| <= max {
      assert InSpan([], from, length) == {};
    }
  }

  lemma FreshIdle(key: Key)
    ensures BucketAt(FRESH, key) == IDLE
  {
  }

  /**
   No span within reach holds more than the allowed failures of one address, or of one
   user there since the last success, whatever other users, lockouts and cleanups occur.
   */
  lemma WindowBound(c: Config, ops: seq<Op>, key: Key, length: int, peak: int, skew: nat, from: int)
    requires Allowed(c, key) > 0 && Skewed(ops, peak, skew)
    requires length <= Reach(c, Allowed(c, key), skew)
    ensures |InSpan(Log(c, FRESH, ops, key), from, length)| <= Allowed(c, key)
  {
    var log := Log(c, FRESH, ops, key);
    if length <= 0 {
      assert InSpan(log, from, length) == {};
    } else {
      hide Log, InSpan, Holds, Allowed;
      FreshIdle(key);
      IdleHolds(c, Allowed(c, key), length, peak, skew);
      var live := RunHolds(c, FRESH, ops, key, [], {}, length, peak, skew);
      assert LogFrom(c, FRESH, ops, key, []) == log;
    }
  }

  // What earns a lockout.

  /** The earlier failures from `cutoff` on. */
  function Recent(log: seq<int>, cutoff: int): set<nat> {
    set i: nat | i < |log| && log[i] >= cutoff
  }

  lemma FailLocks(c: Config, max: int, b: Bucket, log: seq<int>, live: set<nat>, length: int, peak: int, skew: nat, now: int)
    requires Holds(c, max, b, log, live, length, peak, skew) && b.lockedUntil.None? && peak - skew <= now
    requires live == Kept(log, live, now - c.window)
    ensures var locks := Fail(c, b, max, now).lockedUntil.Some?;
            && (locks ==> |Recent(log, now - c.window)| + 1 >= max)
            && (|Recent(log, now - length + 1)| + 1 >= max ==> locks)
  {
    SelectSize(log, live);
    Smaller(live, Recent(log, now - c.window));
    Smaller(Recent(log, now - length + 1), live);
  }

  /**
   A recorded failure locks its address, or its user there, out only when as many as are
   allowed, itself included, have readings within one window before it; and always when
   the others have readings within reach. Failures before the user's last success count
   for neither.
   */
  lemma LockoutIsEarned(c: Config, ops: seq<Op>, key: Key, peak: int, skew: nat, op: Op)
    requires Skewed(ops, peak, skew) && Peak(ops, peak) - skew <= Clock(op, Peak(ops, peak))
    requires Records(c, After(c, FRESH, ops), op, key)
    ensures var log, max := Log(c, FRESH, ops, key), Allowed(c, key);
            var locks := BucketAt(Step(c, After(c, FRESH, ops), op, true).0, key).lockedUntil.Some?;
            && (locks ==> |Recent(log, op.now - c.window)| + 1 >= max)
            && (|Recent(log, op.now - Reach(c, max, skew) + 1)| + 1 >= max ==> locks)
  {
    hide Step, Fail, Log, After, Prune, BucketAt, Holds, Recent, Allowed;
    var l, end, log, max := After(c, FRESH, ops), Peak(ops, peak), Log(c, FRESH, ops, key), Allowed(c, key);
    var length := Reach(c, max, skew);
    RecordsMeansUnlocked(c, l, op, key);
    RecordingStep(c, l, op, key);
    if max == 1 {
      OneLocks(c, Prune(c, BucketAt(l, key), op.now), op.now);
    } else {
      FreshIdle(key);
      IdleHolds(c, max, length, peak, skew);
      var live := RunHolds(c, FRESH, ops, key, [], {}, length, peak, skew);
      assert LogFrom(c, FRESH, ops, key, []) == log;
      var kept := PruneHolds(c, max, BucketAt(l, key), log, live, length, end, skew, op.now);
      FailLocks(c, max, Prune(c, BucketAt(l, key), op.now), log, kept, length, Max(end, op.now), skew, op.now);
    }
  }

  lemma OneLocks(c: Config, b: Bucket, now: int)
    ensures Fail(c, b, 1, now).lockedUntil.Some?
  {
  }

  // Where the bound breaks: runs for every configuration.

  function FailAt(ip: nat, now: int): Op {
    RecordFailure(None, ip, now)
  }

  function QueryAt(ip: nat, now: int): Op {
    RetryAfter(None, ip, now)
  }

  function Times(now: int, n: nat): (times: seq<int>)
    ensures |times| == n && forall i :: 0 <= i < n ==> times[i] == now
    decreases n
  {
    if n == 0 then [] else [now] + Times(now, n - 1)
  }

  function FailTimes(ip: nat, now: int, n: nat): seq<Op>
    decreases n
  {
    if n == 0 then [] else [FailAt(ip, now)] + FailTimes(ip, now, n - 1)
  }

  /** A failure that the bucket does not turn away is the next in the log. */
  lemma NextFailure(c: Config, l: Limiter, ip: nat, now: int, rest: seq<Op>) returns (l1: Limiter)
    requires On(c) && c.maxIpAttempts > 0 && Prune(c, BucketAt(l, Source(ip)), now).lockedUntil.None?
    ensures Log(c, l, [FailAt(ip, now)] + rest, Source(ip)) == [now] + Log(c, l1, rest, Source(ip))
    ensures BucketAt(l1, Source(ip)) == Fail(c, Prune(c, BucketAt(l, Source(ip)), now), c.maxIpAttempts, now)
  {
    hide Prune, Fail, Step, Records;
    l1 := Step(c, l, FailAt(ip, now), true).0;
    UnlockedRecords(c, l, ip, now);
    RecordingStep(c, l, FailAt(ip, now), Source(ip));
    SourceNeverCleared(c, rest, ip);
    assert ([FailAt(ip, now)] + rest)[1..] == rest;
  }

  /** Asking about the address prunes its bucket. */
  lemma NextQuery(c: Config, l: Limiter, ip: nat, now: int, rest: seq<Op>) returns (l1: Limiter)
    requires On(c) && c.maxIpAttempts > 0
    ensures Log(c, l, [QueryAt(ip, now)] + rest, Source(ip)) == Log(c, l1, rest, Source(ip))
    ensures BucketAt(l1, Source(ip)) == Prune(c, BucketAt(l, Source(ip)), now)
  {
    hide Prune, Cleanup, Pruned, Longest;
    var op, rules := QueryAt(ip, now), Rules(c, None, ip);
    l1 := Step(c, l, op, true).0;
    assert rules[0].key in KeysOf(rules);
    PrunedExact(c, Cleanup(c, l, now).attempts, rules, now, false, Source(ip));
    CleanupIsPruned(c, l, now, Source(ip));
    hide Step;
    assert ([op] + rest)[1..] == rest;
    assert [] + Log(c, l1, rest, Source(ip)) == Log(c, l1, rest, Source(ip));
  }

  lemma PruneKeeps(c: Config, b: Bucket, now: int)
    requires b.lockedUntil.None? && forall i :: 0 <= i < |b.failures| ==> b.failures[i] >= now - c.window
    ensures Prune(c, b, now) == b
  {
    SinceAll(b.failures, now - c.window);
  }

  lemma LockoutEnds(c: Config, until: int)
    ensures Prune(c, Bucket([], Some(until)), until) == IDLE
  {
  }

  lemma FailGives(c: Config, f: seq<int>, now: int)
    ensures Fail(c, Bucket(f, None), c.maxIpAttempts, now) ==
            if |f| + 1 >= c.maxIpAttempts then Bucket([], Some(now + c.lockout)) else Bucket(f + [now], None)
  {
  }

  /** Failures at one moment, up to what is allowed, are all recorded. */
  lemma {:induction false} NextFailures(c: Config, l: Limiter, ip: nat, now: int, n: nat, rest: seq<Op>) returns (l1: Limiter)
    requires On(c) && BucketAt(l, Source(ip)).lockedUntil.None? && |BucketAt(l, Source(ip)).failures| + n <= c.maxIpAttempts
    requires forall i :: 0 <= i < |BucketAt(l, Source(ip)).failures| ==> BucketAt(l, Source(ip)).failures[i] >= now - c.window
    requires c.maxIpAttempts > 0
    ensures Log(c, l, FailTimes(ip, now, n) + rest, Source(ip)) == Times(now, n) + Log(c, l1, rest, Source(ip))
    ensures var f := BucketAt(l, Source(ip)).failures;
            |f| + n < c.maxIpAttempts ==> BucketAt(l1, Source(ip)) == Bucket(f + Times(now, n), None)
    decreases n
  {
    hide Log, Prune, Fail, BucketAt;
    if n == 0 {
      l1 := l;
      assert FailTimes(ip, now, 0) + rest == rest && [] + Log(c, l, rest, Source(ip)) == Log(c, l, rest, Source(ip));
      assert BucketAt(l, Source(ip)).failures + [] == BucketAt(l, Source(ip)).failures;
    } else {
      var f := BucketAt(l, Source(ip)).failures;
      PruneKeeps(c, BucketAt(l, Source(ip)), now);
      FailGives(c, f, now);
      assert BucketAt(l, Source(ip)) == Bucket(f, None);
      var more := FailTimes(ip, now, n - 1) + rest;
      var l0 := NextFailure(c, l, ip, now, more);
      assert [FailAt(ip, now)] + more == FailTimes(ip, now, n) + rest;
      if n == 1 {
        l1 := l0;
        assert more == rest;
        assert f + [now] == f + Times(now, 1);
      } else {
        l1 := NextFailures(c, l0, ip, now, n - 1, rest);
        assert f + [now] + Times(now, n - 1) == f + Times(now, n);
        assert [now] + (Times(now, n - 1) + Log(c, l1, rest, Source(ip))) == Times(now, n) + Log(c, l1, rest, Source(ip));
      }
    }
  }

  lemma {:induction false} SkewedTimes(ip: nat, now: int, n: nat, rest: seq<Op>, peak: int, skew: nat)
    requires peak - skew <= now && Skewed(rest, Max(peak, now), skew) && (n == 0 ==> Skewed(rest, peak, skew))
    ensures Skewed(FailTimes(ip, now, n) + rest, peak, skew)
    decreases n
  {
    var ops := FailTimes(ip, now, n) + rest;
    if n == 0 {
      assert ops == rest;
    } else {
      assert ops[1..] == FailTimes(ip, now, n - 1) + rest;
      SkewedTimes(ip, now, n - 1, rest, Max(peak, now), skew);
    }
  }

  lemma SkewedNext(op: Op, rest: seq<Op>, peak: int, skew: nat)
    requires !op.RecordSuccess? && peak - skew <= op.now && Skewed(rest, Max(peak, op.now), skew)
    ensures Skewed([op] + rest, peak, skew)
  {
    assert ([op] + rest)[1..] == rest;
  }

  lemma NoLog(c: Config, l: Limiter, ip: nat)
    ensures Log(c, l, [], Source(ip)) == []
  {
  }

  function Behind(skew: nat): int {
    0 - (skew as int)
  }

  /** The reading of the failures that come too early. */
  function Early(gap: int): int {
    Max(0, gap)
  }

  /**
   A lockout earned by a late failure with an old reading ends early, and a query with a
   new reading ends it: two more failures come with a reading older still.
   */
  function LockoutRun(c: Config, ip: nat, skew: nat): seq<Op>
    requires c.maxIpAttempts > 1
  {
    var t := Early(c.lockout - 2 * skew);
    FailTimes(ip, 0, c.maxIpAttempts - 1) + ([FailAt(ip, Behind(skew))] + ([QueryAt(ip, c.lockout - skew)] + FailTimes(ip, t, 2)))
  }

  lemma LockoutLog(c: Config, ip: nat, skew: nat)
    requires On(c) && c.maxIpAttempts > 1
    ensures Log(c, FRESH, LockoutRun(c, ip, skew), Source(ip))
            == Times(0, c.maxIpAttempts - 1) + ([Behind(skew)] + Times(Early(c.lockout - 2 * skew), 2))
  {
    hide Log, FailTimes, Times, Prune, Fail, BucketAt;
    var n, t := c.maxIpAttempts - 1, Early(c.lockout - 2 * skew);
    var r3 := FailTimes(ip, t, 2) + [];
    var r2 := [QueryAt(ip, c.lockout - skew)] + r3;
    var r1 := [FailAt(ip, Behind(skew))] + r2;
    assert FailTimes(ip, t, 2) + [] == FailTimes(ip, t, 2);
    FreshIdle(Source(ip));
    var l1 := NextFailures(c, FRESH, ip, 0, n, r1);
    assert BucketAt(l1, Source(ip)) == Bucket(Times(0, n), None) by { assert [] + Times(0, n) == Times(0, n); }
    PruneKeeps(c, Bucket(Times(0, n), None), Behind(skew));
    FailGives(c, Times(0, n), Behind(skew));
    var l2 := NextFailure(c, l1, ip, Behind(skew), r2);
    LockoutEnds(c, c.lockout - skew);
    var l3 := NextQuery(c, l2, ip, c.lockout - skew, r3);
    var l4 := NextFailures(c, l3, ip, t, 2, []);
    NoLog(c, l4, ip);
    assert Times(t, 2) + [] == Times(t, 2);
  }

  lemma LockoutSkewed(c: Config, ip: nat, skew: nat)
    requires c.maxIpAttempts > 1 && c.lockout > 0
    ensures Skewed(LockoutRun(c, ip, skew), 0, skew)
  {
    hide Skewed;
    var n, t := c.maxIpAttempts - 1, Early(c.lockout - 2 * skew);
    var r3 := FailTimes(ip, t, 2) + [];
    assert FailTimes(ip, t, 2) + [] == FailTimes(ip, t, 2);
    var peak := Max(0, c.lockout - skew);
    NothingSkewed(Max(peak, t), skew);
    SkewedTimes(ip, t, 2, [], peak, skew);
    SkewedNext(QueryAt(ip, c.lockout - skew), r3, 0, skew);
    SkewedNext(FailAt(ip, Behind(skew)), [QueryAt(ip, c.lockout - skew)] + r3, 0, skew);
    SkewedTimes(ip, 0, n, [FailAt(ip, Behind(skew))] + ([QueryAt(ip, c.lockout - skew)] + r3), 0, skew);
  }

  lemma NothingSkewed(peak: int, skew: nat)
    ensures Skewed([], peak, skew)
  {
  }

  /** A query with a new reading drops a failure out of the window; then come all that are allowed. */
  function WindowRun(c: Config, ip: nat, skew: nat): seq<Op>
    requires c.maxIpAttempts > 0
  {
    [FailAt(ip, 0)] + ([QueryAt(ip, c.window + 1)] + FailTimes(ip, Early(c.window + 1 - skew), c.maxIpAttempts))
  }

  lemma WindowLog(c: Config, ip: nat, skew: nat)
    requires On(c) && c.maxIpAttempts > 1
    ensures Log(c, FRESH, WindowRun(c, ip, skew), Source(ip)) == [0] + Times(Early(c.window + 1 - skew), c.maxIpAttempts)
  {
    hide Log, FailTimes, Times, Prune, Fail, BucketAt;
    var n, t := c.maxIpAttempts, Early(c.window + 1 - skew);
    var r2 := FailTimes(ip, t, n) + [];
    var r1 := [QueryAt(ip, c.window + 1)] + r2;
    assert FailTimes(ip, t, n) + [] == FailTimes(ip, t, n);
    FreshIdle(Source(ip));
    PruneKeeps(c, IDLE, 0);
    FailGives(c, [], 0);
    var l1 := NextFailure(c, FRESH, ip, 0, r1);
    WindowEnds(c);
    var l2 := NextQuery(c, l1, ip, c.window + 1, r2);
    var l3 := NextFailures(c, l2, ip, t, n, []);
    NoLog(c, l3, ip);
    assert Times(t, n) + [] == Times(t, n);
  }

  lemma WindowEnds(c: Config)
    ensures Prune(c, Bucket([] + [0], None), c.window + 1) == IDLE
  {
    assert [0][..0] == [];
  }

  lemma WindowSkewed(c: Config, ip: nat, skew: nat)
    requires On(c) && c.maxIpAttempts > 1
    ensures Skewed(WindowRun(c, ip, skew), 0, skew)
  {
    hide Skewed;
    var t := Early(c.window + 1 - skew);
    assert FailTimes(ip, t, c.maxIpAttempts) + [] == FailTimes(ip, t, c.maxIpAttempts);
    NothingSkewed(Max(c.window + 1, t), skew);
    SkewedTimes(ip, t, c.maxIpAttempts, [], c.window + 1, skew);
    SkewedNext(QueryAt(ip, c.window + 1), FailTimes(ip, t, c.maxIpAttempts), 0, skew);
    SkewedNext(FailAt(ip, 0), [QueryAt(ip, c.window + 1)] + FailTimes(ip, t, c.maxIpAttempts), 0, skew);
  }

  /** Where one failure locks, a query with a new reading ends the lockout. */
  function SingleRun(c: Config, ip: nat, skew: nat): seq<Op> {
    [FailAt(ip, 0)] + ([QueryAt(ip, c.lockout)] + ([FailAt(ip, Early(c.lockout - skew))] + []))
  }

  lemma SingleLog(c: Config, ip: nat, skew: nat)
    requires On(c) && c.maxIpAttempts == 1
    ensures Log(c, FRESH, SingleRun(c, ip, skew), Source(ip)) == [0, Early(c.lockout - skew)]
    ensures Skewed(SingleRun(c, ip, skew), 0, skew)
  {
    hide Log;
    var t := Early(c.lockout - skew);
    var r2 := [FailAt(ip, t)] + [];
    var r1 := [QueryAt(ip, c.lockout)] + r2;
    var l1 := NextFailure(c, FRESH, ip, 0, r1);
    var l2 := NextQuery(c, l1, ip, c.lockout, r2);
    var l3 := NextFailure(c, l2, ip, t, []);
    NoLog(c, l3, ip);
    hide Skewed;
    NothingSkewed(Max(c.lockout, t), skew);
    SkewedNext(FailAt(ip, t), [], c.lockout, skew);
    SkewedNext(QueryAt(ip, c.lockout), r2, 0, skew);
    SkewedNext(FailAt(ip, 0), r1, 0, skew);
  }

  // Exactly when the bound holds.

  function Places(n: nat): (places: set<nat>)
    ensures |places| == n && forall i: nat :: i in places <==> i < n
    decreases n
  {
    if n == 0 then {} else Places(n - 1) + {n - 1}
  }

  /** All but at most one of the failures lie in the span. */
  lemma MostInSpan(log: seq<int>, length: int, skip: nat)
    requires forall i :: 0 <= i < |log| && i != skip ==> 0 <= log[i] < length
    ensures |InSpan(log, 0, length)| >= |log| - 1
    ensures skip >= |log| ==> |InSpan(log, 0, length)| == |log|
  {
    var all := Places(|log|);
    Smaller(all - {skip}, InSpan(log, 0, length));
    if skip >= |log| {
      assert InSpan(log, 0, length) == all;
    }
  }

  lemma BreaksBeyond(c: Config, ip: nat, length: int, skew: nat) returns (ops: seq<Op>)
    requires On(c) && c.maxIpAttempts > 0 && length > Max(0, Reach(c, c.maxIpAttempts, skew))
    ensures Skewed(ops, 0, skew) && |InSpan(Log(c, FRESH, ops, Source(ip)), 0, length)| > c.maxIpAttempts
  {
    hide Log, Skewed, InSpan;
    if c.maxIpAttempts == 1 {
      ops := SingleRun(c, ip, skew);
      SingleLog(c, ip, skew);
      MostInSpan([0, Early(c.lockout - skew)], length, 2);
    } else if length > c.lockout - 2 * skew {
      ops := LockoutRun(c, ip, skew);
      LockoutLog(c, ip, skew);
      LockoutSkewed(c, ip, skew);
      MostInSpan(Times(0, c.maxIpAttempts - 1) + ([Behind(skew)] + Times(Early(c.lockout - 2 * skew), 2)), length, c.maxIpAttempts - 1);
    } else {
      ops := WindowRun(c, ip, skew);
      WindowLog(c, ip, skew);
      WindowSkewed(c, ip, skew);
      MostInSpan([0] + Times(Early(c.window + 1 - skew), c.maxIpAttempts), length, c.maxIpAttempts + 1);
    }
  }

  /** In every run whose readings are at most `skew` out of order, no span of this length holds too many failures. */
  ghost predicate AlwaysBounded(c: Config, ip: nat, length: int, skew: nat) {
    forall ops, peak :: Skewed(ops, peak, skew) ==> Bounded(Log(c, FRESH, ops, Source(ip)), c.maxIpAttempts, length)
  }

  /** Spans are bounded exactly up to the reach. */
  lemma BoundedExactly(c: Config, ip: nat, length: int, skew: nat)
    requires On(c) && c.maxIpAttempts > 0
    ensures AlwaysBounded(c, ip, length, skew) <==> length <= Max(0, Reach(c, c.maxIpAttempts, skew))
  {
    hide Log, InSpan, Skewed;
    if length <= Max(0, Reach(c, c.maxIpAttempts, skew)) {
      forall ops, peak | Skewed(ops, peak, skew) ensures Bounded(Log(c, FRESH, ops, Source(ip)), c.maxIpAttempts, length) {
        forall from ensures |InSpan(Log(c, FRESH, ops, Source(ip)), from, length)| <= c.maxIpAttempts {
          if length <= 0 {
            EmptySpan(Log(c, FRESH, ops, Source(ip)), from, length);
          } else {
            WindowBound(c, ops, Source(ip), length, peak, skew, from);
          }
        }
      }
    } else {
      var ops := BreaksBeyond(c, ip, length, skew);
      assert Skewed(ops, 0, skew) && !Bounded(Log(c, FRESH, ops, Source(ip)), c.maxIpAttempts, length);
    }
  }

  lemma EmptySpan(log: seq<int>, from: int, length: int)
    requires length <= 0
    ensures InSpan(log, from, length) == {}
  {
  }

  /** Whole windows are bounded exactly when the lockout is long enough and, where more than one failure is allowed, readings are at most one unit out of order. */
  lemma WindowBoundedExactly(c: Config, ip: nat, skew: nat)
    requires On(c) && c.maxIpAttempts > 0
    ensures AlwaysBounded(c, ip, c.window, skew) <==>
              if c.maxIpAttempts == 1 then c.window + skew <= c.lockout else skew <= 1 && c.window + 2 * skew <= c.lockout
  {
    hide AlwaysBounded;
    BoundedExactly(c, ip, c.window, skew);
  }
}
