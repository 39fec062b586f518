/**
 The periodic sweep of the login rate limiter: it changes no answer exactly when every
 section's reading is at least as late as all before it.
 */
module RateCleanup {
  import opened Framing
  import opened RateLimit

  // One caller at one address to whom a single rule applies, and another address.

  const CALLER: nat := 2
  const OTHER: nat := 1

  /** No name where the address has a limit, some name where only names have one. */
  function User(c: Config): Option<nat> {
    if c.maxIpAttempts > 0 then None else Some(7)
  }

  function Limit(c: Config): Rule {
    if c.maxIpAttempts > 0 then Rule(Source(CALLER), c.maxIpAttempts) else Rule(Pair(CALLER, 7), c.maxAttempts)
  }

  lemma OneLimit(c: Config)
    ensures Rules(c, User(c), CALLER) == [Limit(c)]
  {
  }

  /** The sweep's reading is the end of the lockout; one interval earlier lets it be due. */
  function Opening(c: Config): int {
    if c.lockout <= CLEANUP_INTERVAL then c.lockout - CLEANUP_INTERVAL else 0
  }

  function Sweep(c: Config): seq<Op> {
    [RetryAfter(None, OTHER, c.lockout)] + ([RetryAfter(User(c), CALLER, c.lockout - 1)] + [])
  }

  /** `n` more failures at time 0, then the other address's query, then the caller's with a reading one older. */
  function Failures(c: Config, n: nat): seq<Op>
    decreases n
  {
    if n == 0 then Sweep(c) else [RecordFailure(User(c), CALLER, 0)] + Failures(c, n - 1)
  }

  function LockedRun(c: Config): seq<Op>
    requires On(c)
  {
    [RetryAfter(None, OTHER, Opening(c))] + Failures(c, Limit(c).maxAttempts)
  }

  lemma {:induction false} FailuresSkewed(c: Config, n: nat, skew: nat)
    requires On(c) && skew > 0
    ensures Skewed(Failures(c, n), 0, skew)
    decreases n
  {
    var ops := Failures(c, n);
    if n == 0 {
      assert ops[1..] == [RetryAfter(User(c), CALLER, c.lockout - 1)] && ops[1..][1..] == [];
    } else {
      FailuresSkewed(c, n - 1, skew);
      assert ops[1..] == Failures(c, n - 1);
    }
  }

  lemma LockedRunSkewed(c: Config, skew: nat)
    requires On(c) && skew > 0
    ensures Skewed(LockedRun(c), Opening(c), skew)
  {
    hide Failures;
    FailuresSkewed(c, Limit(c).maxAttempts, skew);
    assert LockedRun(c)[1..] == Failures(c, Limit(c).maxAttempts);
    SkewedLater(Failures(c, Limit(c).maxAttempts), Opening(c), 0, skew);
  }

  /** Fewer readings before leave fewer to be behind of. */
  lemma {:induction false} SkewedLater(ops: seq<Op>, early: int, late: int, skew: nat)
    requires early <= late && Skewed(ops, late, skew)
    ensures Skewed(ops, early, skew)
    decreases |ops|
  {
    if ops != [] {
      SkewedLater(ops[1..], Max(early, Clock(ops[0], early)), Max(late, Clock(ops[0], late)), skew);
    }
  }

  // The limiter with the sweep and the one without, side by side.

  ghost predicate Differ(c: Config, a: Limiter, b: Limiter, ops: seq<Op>) {
    Answers(c, a, ops, true) != Answers(c, b, ops, false)
  }

  lemma DifferAfter(c: Config, a: Limiter, b: Limiter, op: Op, rest: seq<Op>)
    requires Differ(c, Step(c, a, op, true).0, Step(c, b, op, false).0, rest)
    ensures Differ(c, a, b, [op] + rest)
  {
    hide Step;
    var x, y := Answers(c, a, [op] + rest, true), Answers(c, b, [op] + rest, false);
    assert ([op] + rest)[1..] == rest;
    assert x[1..] == Answers(c, Step(c, a, op, true).0, rest, true);
    assert y[1..] == Answers(c, Step(c, b, op, false).0, rest, false);
  }

  lemma DifferNow(c: Config, a: Limiter, b: Limiter, op: Op)
    requires Step(c, a, op, true).1 != Step(c, b, op, false).1
    ensures Differ(c, a, b, [op] + [])
  {
    hide Step;
    var x, y := Answers(c, a, [op] + [], true), Answers(c, b, [op] + [], false);
    assert x[0] == Step(c, a, op, true).1 && y[0] == Step(c, b, op, false).1;
  }

  function Zeros(n: nat): seq<int>
    decreases n
  {
    if n == 0 then [] else Zeros(n - 1) + [0]
  }

  lemma {:induction false} ZerosSize(n: nat)
    ensures |Zeros(n)| == n && forall i :: 0 <= i < n ==> Zeros(n)[i] == 0
    decreases n
  {
    if n > 0 {
      ZerosSize(n - 1);
    }
  }

  /** The caller's bucket after n failures at time 0. */
  function After0(c: Config, n: nat): Bucket {
    if n >= Limit(c).maxAttempts then Bucket([], Some(c.lockout)) else Bucket(Zeros(n), None)
  }

  function Counted(c: Config, n: nat): map<Key, Bucket> {
    if n == 0 then map[] else map[Limit(c).key := After0(c, n)]
  }

  lemma OneRule(c: Config, m: map<Key, Bucket>, rule: Rule, now: int)
    ensures Pruned(c, m, [rule], now, true) == m[rule.key := Prune(c, Get(m, rule.key), now)]
    ensures rule.key !in m ==> Pruned(c, m, [rule], now, false) == m
    ensures Longest(c, m, [rule], now) == Max(0, RetryIn(Prune(c, Get(m, rule.key), now), now))
    ensures Failed(c, m, [rule], now) == m[rule.key := Fail(c, Get(m, rule.key), rule.maxAttempts, now)]
  {
    hide Prune, Fail;
    assert [rule][..|[rule]| - 1] == [];
    assert Pruned(c, m, [], now, true) == m && Pruned(c, m, [], now, false) == m && Failed(c, m, [], now) == m;
    assert Longest(c, m, [], now) == 0;
  }

  /** A query of the other address sees nothing and changes nothing but by the sweep. */
  lemma OtherQuery(c: Config, l: Limiter, now: int, sweeping: bool)
    requires On(c) && Source(OTHER) !in l.attempts
    ensures Step(c, l, RetryAfter(None, OTHER, now), sweeping).0 == if sweeping then Cleanup(c, l, now) else l
  {
    var l1 := if sweeping then Cleanup(c, l, now) else l;
    assert Source(OTHER) !in l1.attempts;
    if c.maxIpAttempts > 0 {
      assert Rules(c, None, OTHER) == [Rule(Source(OTHER), c.maxIpAttempts)];
      OneRule(c, l1.attempts, Rule(Source(OTHER), c.maxIpAttempts), now);
    } else {
      assert Rules(c, None, OTHER) == [];
    }
  }

  lemma CountOne(c: Config, n: nat)
    requires On(c) && n < Limit(c).maxAttempts
    ensures var b := Prune(c, Get(Counted(c, n), Limit(c).key), 0);
            b.lockedUntil.None? && Fail(c, b, Limit(c).maxAttempts, 0) == After0(c, n + 1)
  {
    ZerosSize(n);
    SinceAll(Zeros(n), 0 - c.window);
  }

  lemma CallerFails(c: Config, l: Limiter, n: nat, sweeping: bool)
    requires On(c) && n < Limit(c).maxAttempts && l.attempts == Counted(c, n) && (sweeping ==> !SweepDue(l, 0))
    ensures Step(c, l, RecordFailure(User(c), CALLER, 0), sweeping).0 == l.(attempts := Counted(c, n + 1))
  {
    hide Prune, Fail, Pruned, Failed, Longest, NewLockout, After0;
    var rule, m := Limit(c), l.attempts;
    var m1 := m[rule.key := Prune(c, Get(m, rule.key), 0)];
    OneLimit(c);
    CountOne(c, n);
    OneRule(c, m, rule, 0);
    OneRule(c, m1, rule, 0);
    assert m1[rule.key := After0(c, n + 1)] == Counted(c, n + 1);
  }

  lemma SweptAway(c: Config, next: int)
    requires On(c) && next <= c.lockout
    ensures var l := Limiter(Counted(c, Limit(c).maxAttempts), Some(next)); Cleanup(c, l, c.lockout).attempts == map[]
  {
  }

  lemma CallerAsks(c: Config, l: Limiter, sweeping: bool)
    requires On(c) && (sweeping ==> !SweepDue(l, c.lockout - 1))
    ensures l.attempts == map[] ==> Step(c, l, RetryAfter(User(c), CALLER, c.lockout - 1), sweeping).1 == 0
    ensures l.attempts == Counted(c, Limit(c).maxAttempts) ==>
              Step(c, l, RetryAfter(User(c), CALLER, c.lockout - 1), sweeping).1 == 1
  {
    OneLimit(c);
    OneRule(c, l.attempts, Limit(c), c.lockout - 1);
    hide Pruned, Longest;
  }

  lemma SweepShows(c: Config, a: Limiter, b: Limiter, next: int)
    requires On(c) && next <= c.lockout && a == Limiter(Counted(c, Limit(c).maxAttempts), Some(next)) && b.attempts == a.attempts
    ensures Differ(c, a, b, Sweep(c))
  {
    hide Step, Counted, Cleanup, Differ;
    NoOther(c, Limit(c).maxAttempts);
    OtherQuery(c, a, c.lockout, true);
    OtherQuery(c, b, c.lockout, false);
    SweptAway(c, next);
    var a1 := Cleanup(c, a, c.lockout);
    NextSweep(c, a, c.lockout);
    CallerAsks(c, a1, true);
    CallerAsks(c, b, false);
    DifferNow(c, a1, b, RetryAfter(User(c), CALLER, c.lockout - 1));
    DifferAfter(c, a, b, RetryAfter(None, OTHER, c.lockout), [RetryAfter(User(c), CALLER, c.lockout - 1)] + []);
  }

  lemma NextSweep(c: Config, l: Limiter, now: int)
    ensures SweepDue(l, now) ==> Cleanup(c, l, now).nextCleanup == Some(now + CLEANUP_INTERVAL)
  {
  }

  lemma NoOther(c: Config, n: nat)
    ensures Source(OTHER) !in Counted(c, n)
  {
  }

  lemma {:induction false} FailuresShow(c: Config, a: Limiter, b: Limiter, n: nat, next: int)
    requires On(c) && n <= Limit(c).maxAttempts && 0 < next <= c.lockout
    requires a == Limiter(Counted(c, Limit(c).maxAttempts - n), Some(next)) && b.attempts == a.attempts
    ensures Differ(c, a, b, Failures(c, n))
    decreases n
  {
    hide Step, Counted, Differ;
    if n == 0 {
      SweepShows(c, a, b, next);
    } else {
      var done := Limit(c).maxAttempts - n;
      CallerFails(c, a, done, true);
      CallerFails(c, b, done, false);
      var op := RecordFailure(User(c), CALLER, 0);
      FailuresShow(c, Step(c, a, op, true).0, Step(c, b, op, false).0, n - 1, next);
      DifferAfter(c, a, b, op, Failures(c, n - 1));
    }
  }

  /** For every configuration, a run with one reading one unit too old in which the sweep shows. */
  lemma LockedRunShows(c: Config)
    requires On(c)
    ensures Differ(c, FRESH, FRESH, LockedRun(c))
  {
    hide Step, Failures, Differ;
    var op := RetryAfter(None, OTHER, Opening(c));
    OtherQuery(c, FRESH, Opening(c), true);
    OtherQuery(c, FRESH, Opening(c), false);
    var a := Step(c, FRESH, op, true).0;
    assert a == Limiter(map[], Some(Opening(c) + CLEANUP_INTERVAL));
    FailuresShow(c, a, FRESH, Limit(c).maxAttempts, Opening(c) + CLEANUP_INTERVAL);
    DifferAfter(c, FRESH, FRESH, op, Failures(c, Limit(c).maxAttempts));
  }

  ghost predicate AlwaysInvisible(c: Config, skew: nat) {
    forall ops, peak :: Skewed(ops, peak, skew) ==> Answers(c, FRESH, ops, true) == Answers(c, FRESH, ops, false)
  }

  /** The sweep changes no answer in any run exactly when no reading may be out of order. */
  lemma InvisibleExactly(c: Config, skew: nat)
    requires On(c)
    ensures AlwaysInvisible(c, skew) <==> skew == 0
  {
    hide Answers, Skewed;
    if skew == 0 {
      forall ops, peak | Skewed(ops, peak, 0) ensures Answers(c, FRESH, ops, true) == Answers(c, FRESH, ops, false) {
        UnskewedIsSweptBefore(c, FRESH, ops, peak, peak);
        CleanupIsInvisible(c, FRESH, FRESH, ops, peak);
      }
    } else {
      LockedRunSkewed(c, skew);
      LockedRunShows(c);
    }
  }
}
