/**
 The login rate limiter: sliding windows of failures per user at an address and per
 address, lockouts, and a periodic sweep of idle buckets. Times are clock readings in
 nanoseconds. A call reads the clock before it takes the lock, so a section may use an
 older reading than the section before it.
 */
module RateLimit {
  import opened Framing

  const CLEANUP_INTERVAL: int := 60_000_000_000

  datatype Config = Config(maxAttempts: int, maxIpAttempts: int, window: int, lockout: int)

  /** One user at one address, or a whole address. */
  datatype Key = Pair(ip: nat, user: nat) | Source(ip: nat)

  datatype Bucket = Bucket(failures: seq<int>, lockedUntil: Option<int>)

  const IDLE := Bucket([], None)

  datatype Limiter = Limiter(attempts: map<Key, Bucket>, nextCleanup: Option<int>)

  datatype Rule = Rule(key: Key, maxAttempts: int)

  predicate On(c: Config) {
    c.maxAttempts > 0 && c.window > 0 && c.lockout > 0
  }

  /** `user` is None when the name is blank or too long. */
  function Rules(c: Config, user: Option<nat>, ip: nat): seq<Rule> {
    (if user.Some? then [Rule(Pair(ip, user.value), c.maxAttempts)] else []) +
    (if c.maxIpAttempts > 0 then [Rule(Source(ip), c.maxIpAttempts)] else [])
  }

  function Get(m: map<Key, Bucket>, key: Key): Bucket {
    if key in m then m[key] else IDLE
  }

  function Since(failures: seq<int>, cutoff: int): seq<int>
    decreases |failures|
  {
    if failures == [] then []
    else
      var last := failures[|failures| - 1];
      Since(failures[..|failures| - 1], cutoff) + (if last >= cutoff then [last] else [])
  }

  function Prune(c: Config, b: Bucket, now: int): Bucket {
    if b.lockedUntil.Some? && now >= b.lockedUntil.value then IDLE
    else b.(failures := Since(b.failures, now - c.window))
  }

  function RetryIn(b: Bucket, now: int): int {
    if b.lockedUntil.Some? && now < b.lockedUntil.value then b.lockedUntil.value - now else 0
  }

  function Max(a: int, b: int): int {
    if a < b then b else a
  }

  // The operations.

  function Swept(c: Config, m: map<Key, Bucket>, now: int): map<Key, Bucket> {
    map key | key in m && Prune(c, m[key], now) != IDLE :: Prune(c, m[key], now)
  }

  predicate SweepDue(l: Limiter, now: int) {
    l.nextCleanup.None? || now >= l.nextCleanup.value
  }

  function Cleanup(c: Config, l: Limiter, now: int): Limiter {
    if SweepDue(l, now) then Limiter(Swept(c, l.attempts, now), Some(now + CLEANUP_INTERVAL)) else l
  }

  /** The longest lockout among the rules' buckets. */
  function Longest(c: Config, m: map<Key, Bucket>, rules: seq<Rule>, now: int): (r: int)
    ensures r >= 0
    decreases |rules|
  {
    if rules == [] then 0
    else
      Max(Longest(c, m, rules[..|rules| - 1], now), RetryIn(Prune(c, Get(m, rules[|rules| - 1].key), now), now))
  }

  /** Buckets of the rules pruned in place; missing ones appear only when asked for. */
  function Pruned(c: Config, m: map<Key, Bucket>, rules: seq<Rule>, now: int, create: bool): map<Key, Bucket>
    decreases |rules|
  {
    if rules == [] then m
    else
      var m1 := Pruned(c, m, rules[..|rules| - 1], now, create);
      var key := rules[|rules| - 1].key;
      if key in m1 || create then m1[key := Prune(c, Get(m1, key), now)] else m1
  }

  function Fail(c: Config, b: Bucket, maxAttempts: int, now: int): Bucket {
    if |b.failures| + 1 >= maxAttempts then Bucket([], Some(now + c.lockout))
    else b.(failures := b.failures + [now])
  }

  function Failed(c: Config, m: map<Key, Bucket>, rules: seq<Rule>, now: int): map<Key, Bucket>
    decreases |rules|
  {
    if rules == [] then m
    else
      var m1 := Failed(c, m, rules[..|rules| - 1], now);
      var rule := rules[|rules| - 1];
      m1[rule.key := Fail(c, Get(m1, rule.key), rule.maxAttempts, now)]
  }

  /** Whether a failure at a rule's bucket starts a lockout. */
  function NewLockout(c: Config, m: map<Key, Bucket>, rules: seq<Rule>, now: int): int
    decreases |rules|
  {
    if rules == [] then 0
    else
      var before := NewLockout(c, m, rules[..|rules| - 1], now);
      var rule := rules[|rules| - 1];
      if |Get(Failed(c, m, rules[..|rules| - 1], now), rule.key).failures| + 1 >= rule.maxAttempts
      then Max(before, c.lockout) else before
  }

  datatype Op =
    | RetryAfter(user: Option<nat>, ip: nat, now: int)
    | RecordFailure(user: Option<nat>, ip: nat, now: int)
    | RecordSuccess(user: Option<nat>, ip: nat)

  /** `sweeping` is false only in the reference limiter without periodic cleanup. */
  function Step(c: Config, l: Limiter, op: Op, sweeping: bool): (Limiter, int) {
    if !On(c) then (l, 0)
    else
      match op
      case RetryAfter(user, ip, now) =>
        var l1 := if sweeping then Cleanup(c, l, now) else l;
        var rules := Rules(c, user, ip);
        (l1.(attempts := Pruned(c, l1.attempts, rules, now, false)), Longest(c, l1.attempts, rules, now))
      case RecordFailure(user, ip, now) =>
        var l1 := if sweeping then Cleanup(c, l, now) else l;
        var rules := Rules(c, user, ip);
        var m := Pruned(c, l1.attempts, rules, now, true);
        var locked := Longest(c, l1.attempts, rules, now);
        if locked > 0 then (l1.(attempts := m), locked)
        else (l1.(attempts := Failed(c, m, rules, now)), NewLockout(c, m, rules, now))
      case RecordSuccess(user, ip) =>
        if user.Some? then (l.(attempts := l.attempts - {Pair(ip, user.value)}), 0) else (l, 0)
  }

  // Pruning.

  lemma {:induction false} SinceTwice(failures: seq<int>, early: int, late: int)
    requires early <= late
    ensures Since(Since(failures, early), late) == Since(failures, late)
    decreases |failures|
  {
    if failures != [] {
      SinceTwice(failures[..|failures| - 1], early, late);
      var last := failures[|failures| - 1];
      var kept := Since(failures[..|failures| - 1], early);
      if last >= early {
        assert (kept + [last])[..|kept + [last]| - 1] == kept;
      } else {
        assert kept + [] == kept && Since(kept, late) + [] == Since(kept, late);
      }
    }
  }

  lemma PruneTwice(c: Config, b: Bucket, early: int, late: int)
    requires early <= late
    ensures Prune(c, Prune(c, b, early), late) == Prune(c, b, late)
  {
    SinceTwice(b.failures, early - c.window, late - c.window);
  }

  lemma SweptIsPruned(c: Config, m: map<Key, Bucket>, now: int, key: Key)
    ensures Prune(c, Get(Swept(c, m, now), key), now) == Prune(c, Get(m, key), now)
  {
    PruneTwice(c, Get(m, key), now, now);
  }

  /** Pruning in place changes no bucket's pruned value. */
  lemma {:induction false} PrunedSame(c: Config, m: map<Key, Bucket>, rules: seq<Rule>, now: int, create: bool, key: Key)
    ensures Prune(c, Get(Pruned(c, m, rules, now, create), key), now) == Prune(c, Get(m, key), now)
    decreases |rules|
  {
    if rules != [] {
      var front := rules[..|rules| - 1];
      PrunedSame(c, m, front, now, create, key);
      PruneTwice(c, Get(Pruned(c, m, front, now, create), key), now, now);
    }
  }

  // Cleanup changes no answer.

  /** Two limiters agree when every bucket has the same pruned value from `clock` on. */
  ghost predicate Agree(c: Config, a: map<Key, Bucket>, b: map<Key, Bucket>, clock: int) {
    forall key :: Same(c, a, b, key, clock)
  }

  predicate Same(c: Config, a: map<Key, Bucket>, b: map<Key, Bucket>, key: Key, now: int) {
    Prune(c, Get(a, key), now) == Prune(c, Get(b, key), now)
  }

  lemma AgreeLater(c: Config, a: map<Key, Bucket>, b: map<Key, Bucket>, clock: int, now: int)
    requires Agree(c, a, b, clock) && clock <= now
    ensures Agree(c, a, b, now)
  {
    forall key ensures Same(c, a, b, key, now) {
      assert Same(c, a, b, key, clock);
      PruneTwice(c, Get(a, key), clock, now);
      PruneTwice(c, Get(b, key), clock, now);
    }
  }

  lemma {:induction false} AgreeLongest(c: Config, a: map<Key, Bucket>, b: map<Key, Bucket>, rules: seq<Rule>, now: int)
    requires Agree(c, a, b, now)
    ensures Longest(c, a, rules, now) == Longest(c, b, rules, now)
    decreases |rules|
  {
    if rules != [] {
      AgreeLongest(c, a, b, rules[..|rules| - 1], now);
      assert Same(c, a, b, rules[|rules| - 1].key, now);
    }
  }

  function KeysOf(rules: seq<Rule>): set<Key> {
    set i | 0 <= i < |rules| :: rules[i].key
  }

  /** After pruning in place, the rules' buckets hold their pruned values and no other has changed. */
  lemma {:induction false} PrunedExact(c: Config, m: map<Key, Bucket>, rules: seq<Rule>, now: int, create: bool, key: Key)
    ensures Get(Pruned(c, m, rules, now, create), key) ==
            if key in KeysOf(rules) then Prune(c, Get(m, key), now) else Get(m, key)
    decreases |rules|
  {
    if rules != [] {
      var front := rules[..|rules| - 1];
      PrunedExact(c, m, front, now, create, key);
      PruneTwice(c, Get(m, key), now, now);
      assert rules[|rules| - 1].key in KeysOf(rules);
      assert key in KeysOf(rules) <==> key in KeysOf(front) || key == rules[|rules| - 1].key by {
        KeysOfLast(rules, key);
      }
    }
  }

  lemma KeysOfLast(rules: seq<Rule>, key: Key)
    requires rules != []
    ensures key in KeysOf(rules) <==> key in KeysOf(rules[..|rules| - 1]) || key == rules[|rules| - 1].key
  {
    var front := rules[..|rules| - 1];
    if key in KeysOf(rules) {
      var i :| 0 <= i < |rules| && rules[i].key == key;
      assert i < |front| ==> front[i].key in KeysOf(front);
    }
    if key in KeysOf(front) {
      var i :| 0 <= i < |front| && front[i].key == key;
      assert rules[i].key in KeysOf(rules);
    }
    assert rules[|rules| - 1].key in KeysOf(rules);
  }

  ghost predicate Exact(a: map<Key, Bucket>, b: map<Key, Bucket>, keys: set<Key>) {
    forall key :: key in keys ==> Get(a, key) == Get(b, key)
  }

  lemma AgreeUpdated(c: Config, a: map<Key, Bucket>, b: map<Key, Bucket>, rule: Rule, now: int, clock: int, keys: set<Key>)
    requires Agree(c, a, b, clock) && Exact(a, b, keys) && rule.key in keys
    ensures var a1 := a[rule.key := Fail(c, Get(a, rule.key), rule.maxAttempts, now)];
            var b1 := b[rule.key := Fail(c, Get(b, rule.key), rule.maxAttempts, now)];
            Agree(c, a1, b1, clock) && Exact(a1, b1, keys)
  {
    var a1 := a[rule.key := Fail(c, Get(a, rule.key), rule.maxAttempts, now)];
    var b1 := b[rule.key := Fail(c, Get(b, rule.key), rule.maxAttempts, now)];
    forall key ensures Same(c, a1, b1, key, clock) {
      assert Same(c, a, b, key, clock);
    }
  }

  lemma {:induction false} AgreeFailed(c: Config, a: map<Key, Bucket>, b: map<Key, Bucket>,
                                       rules: seq<Rule>, now: int, clock: int, keys: set<Key>)
    requires Agree(c, a, b, clock) && Exact(a, b, keys) && KeysOf(rules) <= keys
    ensures Agree(c, Failed(c, a, rules, now), Failed(c, b, rules, now), clock)
    ensures Exact(Failed(c, a, rules, now), Failed(c, b, rules, now), keys)
    ensures NewLockout(c, a, rules, now) == NewLockout(c, b, rules, now)
    decreases |rules|
  {
    hide Agree, Fail;
    if rules != [] {
      var front := rules[..|rules| - 1];
      assert rules[|rules| - 1].key in KeysOf(rules);
      forall key | key in KeysOf(front) ensures key in keys {
        KeysOfLast(rules, key);
      }
      AgreeFailed(c, a, b, front, now, clock, keys);
      AgreeUpdated(c, Failed(c, a, front, now), Failed(c, b, front, now), rules[|rules| - 1], now, clock, keys);
    }
  }

  /** Pruning in place, at any later time, makes the rules' buckets equal and leaves the others alone. */
  lemma AgreeTouched(c: Config, a: map<Key, Bucket>, b: map<Key, Bucket>, rules: seq<Rule>, now: int, create: bool, clock: int)
    requires Agree(c, a, b, clock) && clock <= now
    ensures Agree(c, Pruned(c, a, rules, now, create), Pruned(c, b, rules, now, create), clock)
    ensures Exact(Pruned(c, a, rules, now, create), Pruned(c, b, rules, now, create), KeysOf(rules))
  {
    hide Prune, Pruned;
    AgreeLater(c, a, b, clock, now);
    forall key ensures Same(c, Pruned(c, a, rules, now, create), Pruned(c, b, rules, now, create), key, clock)
      ensures key in KeysOf(rules) ==>
                Get(Pruned(c, a, rules, now, create), key) == Get(Pruned(c, b, rules, now, create), key)
    {
      assert Same(c, a, b, key, clock) && Same(c, a, b, key, now);
      PrunedExact(c, a, rules, now, create, key);
      PrunedExact(c, b, rules, now, create, key);
    }
  }

  lemma AgreeSwept(c: Config, l: Limiter, b: map<Key, Bucket>, now: int, clock: int)
    requires Agree(c, l.attempts, b, clock) && clock <= now
    ensures Agree(c, Cleanup(c, l, now).attempts, b, if SweepDue(l, now) then now else clock)
  {
    if SweepDue(l, now) {
      AgreeLater(c, l.attempts, b, clock, now);
      forall key ensures Same(c, Swept(c, l.attempts, now), b, key, now) {
        assert Same(c, l.attempts, b, key, now);
        SweptIsPruned(c, l.attempts, now, key);
      }
    }
  }

  /** The time an operation reads, or the latest one before it. */
  function Clock(op: Op, clock: int): int {
    if op.RecordSuccess? then clock else op.now
  }

  /** The reading of the latest sweep, this operation's included. */
  function SweepClock(c: Config, l: Limiter, op: Op, clock: int): int {
    if On(c) && !op.RecordSuccess? && SweepDue(l, op.now) then op.now else clock
  }

  lemma StepAgrees(c: Config, a: Limiter, b: Limiter, op: Op, clock: int)
    requires Agree(c, a.attempts, b.attempts, clock) && clock <= Clock(op, clock)
    ensures Step(c, a, op, true).1 == Step(c, b, op, false).1
    ensures Agree(c, Step(c, a, op, true).0.attempts, Step(c, b, op, false).0.attempts, SweepClock(c, a, op, clock))
  {
    hide Agree, Exact, Pruned, Failed, NewLockout, Longest, Cleanup;
    if On(c) {
      if op.RecordSuccess? {
        if op.user.Some? {
          AgreeWithout(c, a.attempts, b.attempts, Pair(op.ip, op.user.value), clock);
        }
      } else {
        var now, rules, at := op.now, Rules(c, op.user, op.ip), SweepClock(c, a, op, clock);
        var a1 := Cleanup(c, a, now).attempts;
        AgreeSwept(c, a, b.attempts, now, clock);
        AgreeLater(c, a1, b.attempts, at, now);
        AgreeLongest(c, a1, b.attempts, rules, now);
        AgreeTouched(c, a1, b.attempts, rules, now, op.RecordFailure?, at);
        if op.RecordFailure? {
          AgreeFailed(c, Pruned(c, a1, rules, now, true), Pruned(c, b.attempts, rules, now, true), rules, now, at, KeysOf(rules));
        }
      }
    }
  }

  lemma AgreeWithout(c: Config, a: map<Key, Bucket>, b: map<Key, Bucket>, key: Key, clock: int)
    requires Agree(c, a, b, clock)
    ensures Agree(c, a - {key}, b - {key}, clock)
  {
    forall k ensures Same(c, a - {key}, b - {key}, k, clock) {
      assert Same(c, a, b, k, clock);
    }
  }

  // Runs.

  /** No section's reading is more than `skew` behind that of an earlier section. */
  predicate Skewed(ops: seq<Op>, peak: int, skew: nat)
    decreases |ops|
  {
    ops == [] || (peak - skew <= Clock(ops[0], peak) && Skewed(ops[1..], Max(peak, Clock(ops[0], peak)), skew))
  }

  function Answers(c: Config, l: Limiter, ops: seq<Op>, sweeping: bool): seq<int>
    decreases |ops|
  {
    if ops == [] then []
    else
      var (l1, answer) := Step(c, l, ops[0], sweeping);
      [answer] + Answers(c, l1, ops[1..], sweeping)
  }

  /** No operation uses a reading older than that of a sweep before it. */
  predicate SweptBefore(c: Config, l: Limiter, ops: seq<Op>, clock: int)
    decreases |ops|
  {
    ops == [] ||
    (clock <= Clock(ops[0], clock) && SweptBefore(c, Step(c, l, ops[0], true).0, ops[1..], SweepClock(c, l, ops[0], clock)))
  }

  /** Unless a sweep is overtaken by an older reading, the limiter answers as one that never sweeps. */
  lemma {:induction false} CleanupIsInvisible(c: Config, a: Limiter, b: Limiter, ops: seq<Op>, clock: int)
    requires Agree(c, a.attempts, b.attempts, clock) && SweptBefore(c, a, ops, clock)
    ensures Answers(c, a, ops, true) == Answers(c, b, ops, false)
    decreases |ops|
  {
    hide Agree, Step;
    if ops != [] {
      StepAgrees(c, a, b, ops[0], clock);
      CleanupIsInvisible(c, Step(c, a, ops[0], true).0, Step(c, b, ops[0], false).0, ops[1..], SweepClock(c, a, ops[0], clock));
    }
  }

  lemma {:induction false} UnskewedIsSweptBefore(c: Config, l: Limiter, ops: seq<Op>, peak: int, sweep: int)
    requires Skewed(ops, peak, 0) && sweep <= peak
    ensures SweptBefore(c, l, ops, sweep)
    decreases |ops|
  {
    if ops != [] {
      UnskewedIsSweptBefore(c, Step(c, l, ops[0], true).0, ops[1..], Max(peak, Clock(ops[0], peak)), SweepClock(c, l, ops[0], sweep));
    }
  }

  // What one operation does to one bucket.

  /** How many failures the bucket's rule allows; none means the rule is not applied. */
  function Allowed(c: Config, key: Key): int {
    if key.Pair? then c.maxAttempts else c.maxIpAttempts
  }

  /** A failure that is counted for the key. */
  predicate Names(op: Op, key: Key) {
    op.RecordFailure? && op.ip == key.ip && (key.Pair? ==> op.user == Some(key.user))
  }

  /** A failure counted for the key that no lockout turned away. */
  predicate Records(c: Config, l: Limiter, op: Op, key: Key) {
    && On(c) && Allowed(c, key) > 0 && Names(op, key)
    && Longest(c, Cleanup(c, l, op.now).attempts, Rules(c, op.user, op.ip), op.now) == 0
  }

  /** A success of the user at the address. */
  predicate Clears(c: Config, op: Op, key: Key) {
    On(c) && op.RecordSuccess? && key.Pair? && op.user == Some(key.user) && op.ip == key.ip
  }

  function BucketAt(l: Limiter, key: Key): Bucket {
    Get(l.attempts, key)
  }

  /** Where the key's rule is among those of an operation that names it. */
  function Place(rules: seq<Rule>, key: Key): nat {
    if key.Pair? || rules == [] then 0 else |rules| - 1
  }

  lemma RuleOf(c: Config, user: Option<nat>, ip: nat, key: Key)
    ensures var rules := Rules(c, user, ip);
            && (key in KeysOf(rules) <==>
                  ip == key.ip && if key.Pair? then user == Some(key.user) else c.maxIpAttempts > 0)
            && (key in KeysOf(rules) ==>
                  var i := Place(rules, key);
                  && i < |rules| && rules[i] == Rule(key, Allowed(c, key))
                  && forall j :: 0 <= j < |rules| && j != i ==> rules[j].key != key)
  {
    var rules := Rules(c, user, ip);
    if ip == key.ip && if key.Pair? then user == Some(key.user) else c.maxIpAttempts > 0 {
      assert rules[Place(rules, key)] == Rule(key, Allowed(c, key));
      assert rules[Place(rules, key)].key in KeysOf(rules);
    }
  }

  lemma CleanupIsPruned(c: Config, l: Limiter, now: int, key: Key)
    ensures Prune(c, Get(Cleanup(c, l, now).attempts, key), now) == Prune(c, Get(l.attempts, key), now)
  {
    SweptIsPruned(c, l.attempts, now, key);
  }

  lemma {:induction false} FailedElsewhere(c: Config, m: map<Key, Bucket>, rules: seq<Rule>, now: int, key: Key)
    requires forall i :: 0 <= i < |rules| ==> rules[i].key != key
    ensures Get(Failed(c, m, rules, now), key) == Get(m, key)
    decreases |rules|
  {
    if rules != [] {
      FailedElsewhere(c, m, rules[..|rules| - 1], now, key);
    }
  }

  /** The failure counts once at the key's own rule. */
  lemma {:induction false} FailedHere(c: Config, m: map<Key, Bucket>, rules: seq<Rule>, now: int, i: nat)
    requires i < |rules| && forall j :: 0 <= j < |rules| && j != i ==> rules[j].key != rules[i].key
    ensures Get(Failed(c, m, rules, now), rules[i].key) == Fail(c, Get(m, rules[i].key), rules[i].maxAttempts, now)
    decreases |rules|
  {
    var front := rules[..|rules| - 1];
    if i == |rules| - 1 {
      FailedElsewhere(c, m, front, now, rules[i].key);
    } else {
      FailedHere(c, m, front, now, i);
    }
  }

  lemma {:induction false} LongestCovers(c: Config, m: map<Key, Bucket>, rules: seq<Rule>, now: int, i: nat)
    requires i < |rules|
    ensures Longest(c, m, rules, now) >= RetryIn(Prune(c, Get(m, rules[i].key), now), now)
    decreases |rules|
  {
    if i < |rules| - 1 {
      LongestCovers(c, m, rules[..|rules| - 1], now, i);
    }
  }

  lemma RecordingStep(c: Config, l: Limiter, op: Op, key: Key)
    requires Records(c, l, op, key)
    ensures BucketAt(Step(c, l, op, true).0, key) == Fail(c, Prune(c, BucketAt(l, key), op.now), Allowed(c, key), op.now)
  {
    hide Fail, Prune, Pruned, Failed, Cleanup, Longest, NewLockout, KeysOf;
    var rules := Rules(c, op.user, op.ip);
    var l1 := Cleanup(c, l, op.now);
    RuleOf(c, op.user, op.ip, key);
    PrunedExact(c, l1.attempts, rules, op.now, true, key);
    CleanupIsPruned(c, l, op.now, key);
    FailedHere(c, Pruned(c, l1.attempts, rules, op.now, true), rules, op.now, Place(rules, key));
  }

  lemma PrunedOrNot(c: Config, l: Limiter, now: int, key: Key)
    ensures var b := Get(l.attempts, key);
            Get(Cleanup(c, l, now).attempts, key) == b || Get(Cleanup(c, l, now).attempts, key) == Prune(c, b, now)
  {
  }

  lemma OtherStep(c: Config, l: Limiter, op: Op, key: Key)
    requires !Records(c, l, op, key) && !Clears(c, op, key) && Allowed(c, key) > 0
    ensures var b, b1 := BucketAt(l, key), BucketAt(Step(c, l, op, true).0, key);
            b1 == b || (!op.RecordSuccess? && b1 == Prune(c, b, op.now))
  {
    hide Prune, Fail, Pruned, Failed, Cleanup, Longest, NewLockout, KeysOf;
    if On(c) && !op.RecordSuccess? {
      var now, l1, rules := op.now, Cleanup(c, l, op.now), Rules(c, op.user, op.ip);
      PrunedOrNot(c, l, now, key);
      PrunedExact(c, l1.attempts, rules, now, op.RecordFailure?, key);
      PruneTwice(c, BucketAt(l, key), now, now);
      if op.RecordFailure? && !Names(op, key) {
        FailedElsewhere(c, Pruned(c, l1.attempts, rules, now, true), rules, now, key);
      }
    }
  }

  lemma ClearingStep(c: Config, l: Limiter, op: Op, key: Key)
    requires Clears(c, op, key)
    ensures BucketAt(Step(c, l, op, true).0, key) == IDLE
  {
  }

  lemma RecordsMeansUnlocked(c: Config, l: Limiter, op: Op, key: Key)
    requires Records(c, l, op, key)
    ensures op.RecordFailure? && Prune(c, BucketAt(l, key), op.now).lockedUntil.None?
  {
    hide Cleanup, Longest, KeysOf;
    var rules := Rules(c, op.user, op.ip);
    RuleOf(c, op.user, op.ip, key);
    CleanupIsPruned(c, l, op.now, key);
    LongestCovers(c, Cleanup(c, l, op.now).attempts, rules, op.now, Place(rules, key));
  }

  lemma UnlockedRecords(c: Config, l: Limiter, ip: nat, now: int)
    requires On(c) && c.maxIpAttempts > 0 && Prune(c, BucketAt(l, Source(ip)), now).lockedUntil.None?
    ensures Records(c, l, RecordFailure(None, ip, now), Source(ip))
  {
    var rules := Rules(c, None, ip);
    var m := Cleanup(c, l, now).attempts;
    CleanupIsPruned(c, l, now, Source(ip));
    assert rules == [Rule(Source(ip), c.maxIpAttempts)] && rules[..0] == [];
    assert Longest(c, m, rules[..0], now) == 0;
  }

  lemma RecordsIsFailure(c: Config, l: Limiter, op: Op, key: Key)
    ensures Records(c, l, op, key) ==> op.RecordFailure? && !Clears(c, op, key)
  {
  }

  const FRESH := Limiter(map[], None)

  function After(c: Config, l: Limiter, ops: seq<Op>): Limiter
    decreases |ops|
  {
    if ops == [] then l else After(c, Step(c, l, ops[0], true).0, ops[1..])
  }

  /** Some operation is a success of the pair. */
  predicate Cleared(c: Config, ops: seq<Op>, key: Key)
    decreases |ops|
  {
    ops != [] && (Clears(c, ops[0], key) || Cleared(c, ops[1..], key))
  }

  /** The times at which failures were recorded for the key since its last success. */
  ghost function Log(c: Config, l: Limiter, ops: seq<Op>, key: Key): seq<int>
    decreases |ops|
  {
    if ops == [] then []
    else
      (if Records(c, l, ops[0], key) && !Cleared(c, ops[1..], key) then [ops[0].now] else []) +
      Log(c, Step(c, l, ops[0], true).0, ops[1..], key)
  }

  lemma {:induction false} SourceNeverCleared(c: Config, ops: seq<Op>, ip: nat)
    ensures !Cleared(c, ops, Source(ip))
    decreases |ops|
  {
    if ops != [] {
      SourceNeverCleared(c, ops[1..], ip);
    }
  }

  lemma {:induction false} SinceAll(f: seq<int>, cutoff: int)
    requires forall i :: 0 <= i < |f| ==> f[i] >= cutoff
    ensures Since(f, cutoff) == f
    decreases |f|
  {
    if f != [] {
      SinceAll(f[..|f| - 1], cutoff);
    }
  }
}
