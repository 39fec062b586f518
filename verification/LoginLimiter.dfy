/** The login rate limiter as it runs: each method is proved to take RateLimit's step. */
module LoginLimiter {
  import opened Framing
  import opened RateLimit

  class LoginRateLimiter {
    const config: Config
    var attempts: map<Key, Bucket>
    var nextCleanup: Option<int>

    function State(): Limiter
      reads this
    {
      Limiter(attempts, nextCleanup)
    }

    constructor (config: Config)
      ensures this.config == config && State() == FRESH
    {
      this.config, attempts, nextCleanup := config, map[], None;
    }

    method PruneBucket(b: Bucket, now: int) returns (r: Bucket)
      ensures r == Prune(config, b, now)
    {
      if b.lockedUntil.Some? && now >= b.lockedUntil.value {
        return IDLE;
      }
      var cutoff := now - config.window;
      var failures := [];
      for i := 0 to |b.failures|
        invariant failures == Since(b.failures[..i], cutoff)
      {
        assert b.failures[..i + 1][..i] == b.failures[..i];
        if b.failures[i] >= cutoff {
          failures := failures + [b.failures[i]];
        }
      }
      assert b.failures[..|b.failures|] == b.failures;
      r := b.(failures := failures);
    }

    method CleanupExpired(now: int)
      modifies this
      ensures State() == Cleanup(config, old(State()), now)
    {
      if nextCleanup.Some? && now < nextCleanup.value {
        return;
      }
      nextCleanup := Some(now + CLEANUP_INTERVAL);
      var todo := attempts.Keys;
      ghost var m := attempts;
      while todo != {}
        invariant nextCleanup == Some(now + CLEANUP_INTERVAL) && m == old(attempts)
        invariant todo <= attempts.Keys <= m.Keys
        invariant forall key :: key in todo ==> attempts[key] == m[key]
        invariant forall key :: key in m && key !in todo ==>
                    (key in attempts <==> key in Swept(config, m, now))
                    && (key in attempts ==> attempts[key] == Prune(config, m[key], now))
        decreases |todo|
      {
        var key :| key in todo;
        var bucket := PruneBucket(attempts[key], now);
        if bucket.failures == [] && bucket.lockedUntil.None? {
          attempts := attempts - {key};
        } else {
          attempts := attempts[key := bucket];
        }
        todo := todo - {key};
      }
      assert attempts == Swept(config, m, now);
    }

    method RetryAfter(user: Option<nat>, ip: nat, now: int) returns (retry: int)
      modifies this
      ensures (State(), retry) == Step(config, old(State()), Op.RetryAfter(user, ip, now), true)
    {
      retry := 0;
      if !On(config) {
        return;
      }
      CleanupExpired(now);
      var rules := Rules(config, user, ip);
      ghost var l := State();
      for i := 0 to |rules|
        invariant attempts == Pruned(config, l.attempts, rules[..i], now, false) && nextCleanup == l.nextCleanup
        invariant retry == Longest(config, l.attempts, rules[..i], now)
      {
        assert rules[..i + 1][..i] == rules[..i];
        var key := rules[i].key;
        PrunedSame(config, l.attempts, rules[..i], now, false, key);
        if key !in attempts {
          continue;
        }
        var bucket := PruneBucket(attempts[key], now);
        attempts := attempts[key := bucket];
        if RetryIn(bucket, now) > retry {
          retry := RetryIn(bucket, now);
        }
      }
      assert rules[..|rules|] == rules;
    }

    method TouchForFailure(rules: seq<Rule>, now: int) returns (retry: int)
      modifies this`attempts
      ensures attempts == Pruned(config, old(attempts), rules, now, true)
      ensures retry == Longest(config, old(attempts), rules, now)
    {
      retry := 0;
      ghost var m := attempts;
      for i := 0 to |rules|
        invariant m == old(attempts) && attempts == Pruned(config, m, rules[..i], now, true)
        invariant retry == Longest(config, m, rules[..i], now)
      {
        assert rules[..i + 1][..i] == rules[..i];
        var key := rules[i].key;
        PrunedSame(config, m, rules[..i], now, true, key);
        var bucket := PruneBucket(if key in attempts then attempts[key] else IDLE, now);
        attempts := attempts[key := bucket];
        if RetryIn(bucket, now) > retry {
          retry := RetryIn(bucket, now);
        }
      }
      assert rules[..|rules|] == rules;
    }

    method CountFailure(rules: seq<Rule>, now: int) returns (retry: int)
      modifies this`attempts
      ensures attempts == Failed(config, old(attempts), rules, now)
      ensures retry == NewLockout(config, old(attempts), rules, now)
    {
      retry := 0;
      ghost var m := attempts;
      for i := 0 to |rules|
        invariant m == old(attempts) && attempts == Failed(config, m, rules[..i], now)
        invariant retry == NewLockout(config, m, rules[..i], now)
      {
        assert rules[..i + 1][..i] == rules[..i];
        var rule := rules[i];
        var bucket := if rule.key in attempts then attempts[rule.key] else IDLE;
        bucket := bucket.(failures := bucket.failures + [now]);
        if |bucket.failures| >= rule.maxAttempts {
          bucket := Bucket([], Some(now + config.lockout));
          if config.lockout > retry {
            retry := config.lockout;
          }
        }
        attempts := attempts[rule.key := bucket];
      }
      assert rules[..|rules|] == rules;
    }

    method RecordFailure(user: Option<nat>, ip: nat, now: int) returns (retry: int)
      modifies this
      ensures (State(), retry) == Step(config, old(State()), Op.RecordFailure(user, ip, now), true)
    {
      hide Pruned, Failed, NewLockout, Longest, Cleanup, Rules;
      retry := 0;
      if !On(config) {
        return;
      }
      CleanupExpired(now);
      var rules := Rules(config, user, ip);
      retry := TouchForFailure(rules, now);
      if retry > 0 {
        return;
      }
      retry := CountFailure(rules, now);
    }

    method RecordSuccess(user: Option<nat>, ip: nat)
      modifies this
      ensures State() == Step(config, old(State()), Op.RecordSuccess(user, ip), true).0
    {
      if On(config) && user.Some? {
        attempts := attempts - {Pair(ip, user.value)};
      }
    }
  }
}
