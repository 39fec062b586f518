/**
 What the login rate limiter answers: the longest lockout that applies, a lockout that
 the failure itself starts, and after a success what a limiter would answer that never
 saw the user fail at the address.
 */
module RateAnswers {
  import opened Framing
  import opened RateLimit

  // Answers.

  /** How long the bucket's lockout still lasts. */
  function LockedFor(l: Limiter, key: Key, now: int): int {
    match BucketAt(l, key).lockedUntil
    case Some(until) => if now < until then until - now else 0
    case None => 0
  }

  /** The longer of the user's lockout at the address and the address's, where each applies. */
  function Remaining(c: Config, l: Limiter, user: Option<nat>, ip: nat, now: int): int {
    var pair := if user.Some? then LockedFor(l, Pair(ip, user.value), now) else 0;
    var source := if c.maxIpAttempts > 0 then LockedFor(l, Source(ip), now) else 0;
    if pair < source then source else pair
  }

  lemma CleanLocked(c: Config, l: Limiter, key: Key, now: int)
    ensures RetryIn(Prune(c, Get(Cleanup(c, l, now).attempts, key), now), now) == LockedFor(l, key, now)
  {
    CleanupIsPruned(c, l, now, key);
  }

  lemma LongestNext(c: Config, m: map<Key, Bucket>, rules: seq<Rule>, rule: Rule, now: int)
    ensures Longest(c, m, rules + [rule], now) == Max(Longest(c, m, rules, now), RetryIn(Prune(c, Get(m, rule.key), now), now))
    ensures Longest(c, m, [], now) == 0
  {
    hide Prune, RetryIn;
    assert (rules + [rule])[..|rules + [rule]| - 1] == rules;
  }

  lemma LongestIsRemaining(c: Config, l: Limiter, user: Option<nat>, ip: nat, now: int)
    ensures Longest(c, Cleanup(c, l, now).attempts, Rules(c, user, ip), now) == Remaining(c, l, user, ip, now)
  {
    hide Cleanup, Prune, RetryIn, LockedFor, Longest;
    var m, source := Cleanup(c, l, now).attempts, Rule(Source(ip), c.maxIpAttempts);
    CleanLocked(c, l, Source(ip), now);
    LockedAtLeast(l, Source(ip), now);
    LongestNext(c, m, [], source, now);
    assert [] + [source] == [source];
    if user.Some? {
      var pair := Rule(Pair(ip, user.value), c.maxAttempts);
      CleanLocked(c, l, pair.key, now);
      LockedAtLeast(l, pair.key, now);
      LongestNext(c, m, [], pair, now);
      assert [] + [pair] == [pair] && [pair] + [] == [pair];
      LongestNext(c, m, [pair], source, now);
      assert Rules(c, user, ip) == if c.maxIpAttempts > 0 then [pair] + [source] else [pair];
    } else {
      assert Rules(c, user, ip) == if c.maxIpAttempts > 0 then [source] else [];
    }
  }

  lemma LockedAtLeast(l: Limiter, key: Key, now: int)
    ensures LockedFor(l, key, now) >= 0
  {
  }

  /** A query is answered with the longest lockout that applies. */
  lemma QueryExactly(c: Config, l: Limiter, user: Option<nat>, ip: nat, now: int)
    ensures Step(c, l, RetryAfter(user, ip, now), true).1 == if On(c) then Remaining(c, l, user, ip, now) else 0
  {
    LongestIsRemaining(c, l, user, ip, now);
  }

  /** A failure is recorded, for everything it names that has a limit, exactly when no lockout applies. */
  lemma RecordsExactly(c: Config, l: Limiter, op: Op, key: Key)
    ensures Records(c, l, op, key) <==>
              && On(c) && Allowed(c, key) > 0 && Names(op, key)
              && Remaining(c, l, op.user, op.ip, op.now) == 0
  {
    if Names(op, key) {
      LongestIsRemaining(c, l, op.user, op.ip, op.now);
    }
  }

  lemma UnlockedAfterPrune(c: Config, l: Limiter, op: Op, key: Key)
    requires Records(c, l, op, key)
    ensures BucketAt(Step(c, l, op, true).0, key).lockedUntil ==
            if |Prune(c, BucketAt(l, key), op.now).failures| + 1 >= Allowed(c, key) then Some(op.now + c.lockout) else None
  {
    hide Step, Records, Prune;
    RecordsMeansUnlocked(c, l, op, key);
    RecordingStep(c, l, op, key);
  }

  lemma FullMeansLocks(c: Config, l: Limiter, op: Op, key: Key, others: seq<Rule>)
    requires Records(c, l, op, key) && forall i :: 0 <= i < |others| ==> others[i].key != key
    ensures var m := Pruned(c, Cleanup(c, l, op.now).attempts, Rules(c, op.user, op.ip), op.now, true);
            |Get(Failed(c, m, others, op.now), key).failures| + 1 >= Allowed(c, key) <==>
              BucketAt(Step(c, l, op, true).0, key).lockedUntil == Some(op.now + c.lockout)
  {
    hide Step, Prune, Pruned, Cleanup, Longest, KeysOf;
    var rules := Rules(c, op.user, op.ip);
    var m := Pruned(c, Cleanup(c, l, op.now).attempts, rules, op.now, true);
    RuleOf(c, op.user, op.ip, key);
    PrunedExact(c, Cleanup(c, l, op.now).attempts, rules, op.now, true, key);
    CleanupIsPruned(c, l, op.now, key);
    FailedElsewhere(c, m, others, op.now, key);
    UnlockedAfterPrune(c, l, op, key);
  }

  /** The failure leaves the key locked for a whole lockout. */
  predicate Locks(c: Config, l: Limiter, op: Op, key: Key) {
    Allowed(c, key) > 0 && Names(op, key) && BucketAt(Step(c, l, op, true).0, key).lockedUntil == Some(op.now + c.lockout)
  }

  /**
   A failure is answered with the lockout that applied before it; without one, with a
   whole lockout exactly when it locks its user or its address out.
   */
  lemma FailureExactly(c: Config, l: Limiter, user: Option<nat>, ip: nat, now: int)
    ensures var op := RecordFailure(user, ip, now);
            Step(c, l, op, true).1 ==
              if !On(c) then 0
              else if Remaining(c, l, user, ip, now) > 0 then Remaining(c, l, user, ip, now)
              else if (user.Some? && Locks(c, l, op, Pair(ip, user.value))) || Locks(c, l, op, Source(ip)) then c.lockout
              else 0
  {
    hide Step, Cleanup, Pruned, Longest, NewLockout, Rules, Remaining, Locks, On;
    FailureStep(c, l, user, ip, now);
    LongestIsRemaining(c, l, user, ip, now);
    if On(c) && Remaining(c, l, user, ip, now) <= 0 {
      NewLockoutExactly(c, l, user, ip, now);
    }
  }

  lemma FailureStep(c: Config, l: Limiter, user: Option<nat>, ip: nat, now: int)
    ensures var m, rules := Cleanup(c, l, now).attempts, Rules(c, user, ip);
            Step(c, l, RecordFailure(user, ip, now), true).1 ==
              if !On(c) then 0
              else if Longest(c, m, rules, now) > 0 then Longest(c, m, rules, now)
              else NewLockout(c, Pruned(c, m, rules, now, true), rules, now)
  {
    hide Cleanup, Pruned, Failed, Longest, NewLockout, Rules;
  }

  lemma NewLockoutExactly(c: Config, l: Limiter, user: Option<nat>, ip: nat, now: int)
    requires On(c) && Longest(c, Cleanup(c, l, now).attempts, Rules(c, user, ip), now) == 0
    ensures var op, rules := RecordFailure(user, ip, now), Rules(c, user, ip);
            NewLockout(c, Pruned(c, Cleanup(c, l, now).attempts, rules, now, true), rules, now) ==
              if (user.Some? && Locks(c, l, op, Pair(ip, user.value))) || Locks(c, l, op, Source(ip)) then c.lockout else 0
  {
    hide Step, Pruned, Cleanup, Longest, Failed, Fail, NewLockout, Allowed, Rules;
    var op, rules := RecordFailure(user, ip, now), Rules(c, user, ip);
    var m := Pruned(c, Cleanup(c, l, now).attempts, rules, now, true);
    var source := Rule(Source(ip), c.maxIpAttempts);
    RulesAre(c, user, ip);
    NoFailed(c, m, now);
    NewLockoutNext(c, m, [], source, now);
    assert [] + [source] == [source];
    if c.maxIpAttempts > 0 {
      AllowedAre(c, Source(ip));
      FullMeansLocks(c, l, op, Source(ip), []);
    }
    if user.Some? {
      var pair := Rule(Pair(ip, user.value), c.maxAttempts);
      AllowedAre(c, pair.key);
      FullMeansLocks(c, l, op, pair.key, []);
      NewLockoutNext(c, m, [], pair, now);
      assert [] + [pair] == [pair];
      if c.maxIpAttempts > 0 {
        FullMeansLocks(c, l, op, Source(ip), [pair]);
        NewLockoutNext(c, m, [pair], source, now);
        assert [pair] + [source] == [pair, source];
      }
    }
    AllowedAre(c, Source(ip));
  }

  lemma RulesAre(c: Config, user: Option<nat>, ip: nat)
    ensures var source := Rule(Source(ip), c.maxIpAttempts);
            Rules(c, user, ip) ==
              if user.Some? && c.maxIpAttempts > 0 then [Rule(Pair(ip, user.value), c.maxAttempts), source]
              else if user.Some? then [Rule(Pair(ip, user.value), c.maxAttempts)]
              else if c.maxIpAttempts > 0 then [source]
              else []
  {
  }

  lemma AllowedAre(c: Config, key: Key)
    ensures Allowed(c, key) == if key.Pair? then c.maxAttempts else c.maxIpAttempts
  {
  }

  lemma NoFailed(c: Config, m: map<Key, Bucket>, now: int)
    ensures Failed(c, m, [], now) == m && NewLockout(c, m, [], now) == 0
  {
  }

  lemma NewLockoutNext(c: Config, m: map<Key, Bucket>, rules: seq<Rule>, rule: Rule, now: int)
    ensures NewLockout(c, m, rules + [rule], now) ==
            var before := NewLockout(c, m, rules, now);
            if |Get(Failed(c, m, rules, now), rule.key).failures| + 1 >= rule.maxAttempts then Max(before, c.lockout) else before
  {
    hide Failed;
    assert (rules + [rule])[..|rules + [rule]| - 1] == rules;
  }

  // After a success.

  /** Every bucket is the same, a missing one being idle. */
  ghost predicate Alike(a: Limiter, b: Limiter) {
    a.nextCleanup == b.nextCleanup && forall key :: BucketAt(a, key) == BucketAt(b, key)
  }

  lemma IdlePrunes(c: Config, now: int)
    ensures Prune(c, IDLE, now) == IDLE
  {
  }

  lemma CleanupAlike(c: Config, a: Limiter, b: Limiter, now: int)
    requires Alike(a, b)
    ensures Alike(Cleanup(c, a, now), Cleanup(c, b, now))
  {
    IdlePrunes(c, now);
    forall key ensures BucketAt(Cleanup(c, a, now), key) == BucketAt(Cleanup(c, b, now), key) {
      assert BucketAt(a, key) == BucketAt(b, key);
    }
  }

  lemma TouchAlike(c: Config, a: Limiter, b: Limiter, rules: seq<Rule>, now: int, create: bool)
    requires Alike(a, b)
    ensures Alike(a.(attempts := Pruned(c, a.attempts, rules, now, create)), b.(attempts := Pruned(c, b.attempts, rules, now, create)))
  {
    var a1 := a.(attempts := Pruned(c, a.attempts, rules, now, create));
    var b1 := b.(attempts := Pruned(c, b.attempts, rules, now, create));
    forall key ensures BucketAt(a1, key) == BucketAt(b1, key) {
      assert BucketAt(a, key) == BucketAt(b, key);
      PrunedExact(c, a.attempts, rules, now, create, key);
      PrunedExact(c, b.attempts, rules, now, create, key);
    }
  }

  lemma {:induction false} LongestAlike(c: Config, a: Limiter, b: Limiter, rules: seq<Rule>, now: int)
    requires Alike(a, b)
    ensures Longest(c, a.attempts, rules, now) == Longest(c, b.attempts, rules, now)
    decreases |rules|
  {
    if rules != [] {
      LongestAlike(c, a, b, rules[..|rules| - 1], now);
      assert BucketAt(a, rules[|rules| - 1].key) == BucketAt(b, rules[|rules| - 1].key);
    }
  }

  lemma {:induction false} FailAlike(c: Config, a: Limiter, b: Limiter, rules: seq<Rule>, now: int)
    requires Alike(a, b)
    ensures Alike(a.(attempts := Failed(c, a.attempts, rules, now)), b.(attempts := Failed(c, b.attempts, rules, now)))
    ensures NewLockout(c, a.attempts, rules, now) == NewLockout(c, b.attempts, rules, now)
    decreases |rules|
  {
    if rules != [] {
      var front, last := rules[..|rules| - 1], rules[|rules| - 1];
      FailAlike(c, a, b, front, now);
      var a1, b1 := a.(attempts := Failed(c, a.attempts, front, now)), b.(attempts := Failed(c, b.attempts, front, now));
      assert BucketAt(a1, last.key) == BucketAt(b1, last.key);
      var a2, b2 := a.(attempts := Failed(c, a.attempts, rules, now)), b.(attempts := Failed(c, b.attempts, rules, now));
      forall key ensures BucketAt(a2, key) == BucketAt(b2, key) {
        assert BucketAt(a1, key) == BucketAt(b1, key);
      }
    }
  }

  lemma ClearAlike(c: Config, a: Limiter, b: Limiter, user: Option<nat>, ip: nat)
    requires Alike(a, b)
    ensures Alike(Step(c, a, RecordSuccess(user, ip), true).0, Step(c, b, RecordSuccess(user, ip), true).0)
  {
    var op := RecordSuccess(user, ip);
    forall key ensures BucketAt(Step(c, a, op, true).0, key) == BucketAt(Step(c, b, op, true).0, key) {
      assert BucketAt(a, key) == BucketAt(b, key);
    }
  }

  lemma StepAlike(c: Config, a: Limiter, b: Limiter, op: Op)
    requires Alike(a, b)
    ensures Step(c, a, op, true).1 == Step(c, b, op, true).1 && Alike(Step(c, a, op, true).0, Step(c, b, op, true).0)
  {
    hide Alike, Cleanup, Pruned, Failed, NewLockout, Longest, Rules;
    if op.RecordSuccess? {
      ClearAlike(c, a, b, op.user, op.ip);
    } else if On(c) {
      var now, rules := op.now, Rules(c, op.user, op.ip);
      var a1, b1 := Cleanup(c, a, now), Cleanup(c, b, now);
      CleanupAlike(c, a, b, now);
      LongestAlike(c, a1, b1, rules, now);
      TouchAlike(c, a1, b1, rules, now, op.RecordFailure?);
      var a2 := a1.(attempts := Pruned(c, a1.attempts, rules, now, op.RecordFailure?));
      var b2 := b1.(attempts := Pruned(c, b1.attempts, rules, now, op.RecordFailure?));
      FailAlike(c, a2, b2, rules, now);
    }
  }

  lemma {:induction false} AnswersAlike(c: Config, a: Limiter, b: Limiter, ops: seq<Op>)
    requires Alike(a, b)
    ensures Answers(c, a, ops, true) == Answers(c, b, ops, true)
    decreases |ops|
  {
    hide Alike, Step;
    if ops != [] {
      StepAlike(c, a, b, ops[0]);
      AnswersAlike(c, Step(c, a, ops[0], true).0, Step(c, b, ops[0], true).0, ops[1..]);
    }
  }

  /** As `l`, but the user never failed at the address. */
  ghost predicate WithoutPair(l: Limiter, l0: Limiter, user: nat, ip: nat) {
    && l0.nextCleanup == l.nextCleanup && Pair(ip, user) !in l0.attempts
    && forall key :: key != Pair(ip, user) ==> BucketAt(l0, key) == BucketAt(l, key)
  }

  /**
   After a success every later answer is that of a limiter in which the user never failed
   at the address; a success without a usable name changes none.
   */
  lemma SuccessIsFresh(c: Config, l: Limiter, l0: Limiter, user: Option<nat>, ip: nat, ops: seq<Op>)
    requires if user.Some? then WithoutPair(l, l0, user.value, ip) else l0 == l
    ensures Answers(c, Step(c, l, RecordSuccess(user, ip), true).0, ops, true) == Answers(c, l0, ops, true)
  {
    var l1 := Step(c, l, RecordSuccess(user, ip), true).0;
    if On(c) {
      assert Alike(l1, l0);
      AnswersAlike(c, l1, l0, ops);
    } else {
      OffAnswers(c, l1, l0, ops);
    }
  }

  lemma {:induction false} OffAnswers(c: Config, a: Limiter, b: Limiter, ops: seq<Op>)
    requires !On(c)
    ensures Answers(c, a, ops, true) == Answers(c, b, ops, true)
    decreases |ops|
  {
    if ops != [] {
      OffAnswers(c, a, b, ops[1..]);
    }
  }
}
