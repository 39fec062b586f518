/**
 When output counts as healthy again, told from the outcomes of writes, flushes and
 retries alone: what failed, when each write had begun, and which retries were
 overtaken while in flight.
 */
module OutputReadiness {
  import opened OutputHealth

  // What a trace of outcomes says.

  predicate Of(o: Outcome, key: Key) {
    (o.kind.Guest? || o.kind.Retried?) && o.kind.key == key
  }

  /** While a retry of `rejection` was in flight, its key was rejected again or an attempt begun after `rejection` was accepted. */
  predicate Overtakes(t: seq<Outcome>, began: nat, rejection: nat, key: Key, j: nat) {
    began <= j < |t| && Of(t[j], key) && (t[j].failed || rejection < t[j].began)
  }

  ghost predicate Overtaken(t: seq<Outcome>, i: nat) {
    i < |t| && t[i].kind.Retried? &&
    exists j: nat :: j < i && Overtakes(t, t[i].began, t[i].kind.rejection, t[i].kind.key, j)
  }

  /** A failure of any kind that is not an overtaken retry's. */
  ghost predicate Failure(t: seq<Outcome>, i: nat) {
    i < |t| && t[i].failed && !Overtaken(t, i)
  }

  ghost predicate Rejection(t: seq<Outcome>, i: nat, key: Key) {
    Failure(t, i) && Of(t[i], key)
  }

  /** The j-th outcome accepted the key by an attempt begun after the i-th. */
  ghost predicate Answers(t: seq<Outcome>, i: nat, key: Key, j: nat) {
    j < |t| && Of(t[j], key) && !t[j].failed && i < t[j].began && !Overtaken(t, j)
  }

  ghost predicate Answered(t: seq<Outcome>, i: nat, key: Key, upTo: nat) {
    exists j: nat :: j < upTo && Answers(t, i, key, j)
  }

  /** A write begun after every failure succeeded, every rejection having been answered by then. */
  ghost predicate Recovers(t: seq<Outcome>, j: nat) {
    && j < |t| && !t[j].failed && !t[j].kind.Flushed? && !Overtaken(t, j)
    && (forall f: nat :: Failure(t, f) ==> f < t[j].began)
    && (forall i: nat, k :: Rejection(t, i, k) ==> Answered(t, i, k, j + 1))
  }

  ghost predicate Recovered(t: seq<Outcome>) {
    (forall f: nat :: !Failure(t, f)) || exists j: nat :: Recovers(t, j)
  }

  // Later outcomes change nothing about earlier ones.

  lemma OvertakenStays(t: seq<Outcome>, o: Outcome, i: nat)
    requires i < |t|
    ensures Overtaken(t + [o], i) <==> Overtaken(t, i)
  {
    if Overtaken(t, i) {
      var j: nat :| j < i && Overtakes(t, t[i].began, t[i].kind.rejection, t[i].kind.key, j);
      assert Overtakes(t + [o], t[i].began, t[i].kind.rejection, t[i].kind.key, j);
    }
    if Overtaken(t + [o], i) {
      var j: nat :| j < i && Overtakes(t + [o], t[i].began, t[i].kind.rejection, t[i].kind.key, j);
      assert Overtakes(t, t[i].began, t[i].kind.rejection, t[i].kind.key, j);
    }
  }

  lemma PastStays(t: seq<Outcome>, o: Outcome)
    ensures forall i: nat :: i < |t| ==> (Overtaken(t + [o], i) <==> Overtaken(t, i))
    ensures forall i: nat :: i < |t| ==> (Failure(t + [o], i) <==> Failure(t, i))
    ensures forall i: nat, k :: i < |t| ==> (Rejection(t + [o], i, k) <==> Rejection(t, i, k))
    ensures forall i: nat, k, j: nat :: j < |t| ==> (Answers(t + [o], i, k, j) <==> Answers(t, i, k, j))
  {
    forall i: nat | i < |t| ensures Overtaken(t + [o], i) <==> Overtaken(t, i) {
      OvertakenStays(t, o, i);
    }
  }

  lemma AnsweredStays(t: seq<Outcome>, o: Outcome, i: nat, key: Key, upTo: nat)
    requires upTo <= |t|
    ensures Answered(t + [o], i, key, upTo) <==> Answered(t, i, key, upTo)
  {
    PastStays(t, o);
    hide Answers;
  }

  // The sink and its history.

  ghost predicate CountsSound(failures: nat, log: History) {
    && |log.counts| == |log.trace| + 1 && log.counts[|log.trace|] == failures
    && (forall i, j :: 0 <= i <= j < |log.counts| ==> log.counts[i] <= log.counts[j])
    && (forall i: nat :: i < |log.trace| ==>
          log.counts[i + 1] == log.counts[i] + if Failure(log.trace, i) then 1 else 0)
    && (forall i :: 0 <= i < |log.trace| ==> log.trace[i].began <= i)
  }

  ghost predicate LatestSound(log: History) {
    && (forall k :: k in log.latest ==> Rejection(log.trace, log.latest[k], k))
    && (forall i: nat, k :: Rejection(log.trace, i, k) ==> k in log.latest && i <= log.latest[k])
  }

  /** A remembered key's latest rejection is unanswered; short of overflow, so is no other's. */
  ghost predicate Remembers(sink: Sink, log: History) {
    && (forall k :: k in sink.rejected ==>
          && k in log.latest && log.latest[k] + 1 < |log.counts|
          && sink.rejected[k].version == log.counts[log.latest[k] + 1]
          && !Answered(log.trace, log.latest[k], k, |log.trace|))
    && (!sink.overflow ==> forall k :: k in log.latest && k !in sink.rejected ==>
          Answered(log.trace, log.latest[k], k, |log.trace|))
  }

  ghost predicate FailingExactly(sink: Sink, log: History) {
    !sink.overflow ==> (sink.failing <==> !Recovered(log.trace))
  }

  ghost predicate LogInv(sink: Sink, log: History) {
    CountsSound(sink.failures, log) && LatestSound(log) && Remembers(sink, log) && FailingExactly(sink, log)
  }

  /** A failure is counted before an attempt exactly when it came before it. */
  lemma CountOrder(failures: nat, log: History, i: nat, b: nat)
    requires CountsSound(failures, log) && Failure(log.trace, i) && b <= |log.trace|
    ensures log.counts[i + 1] <= log.counts[b] <==> i < b
  {
    assert log.counts[i + 1] == log.counts[i] + 1;
    if i < b {
      assert log.counts[i + 1] <= log.counts[b];
    } else {
      assert log.counts[b] <= log.counts[i];
    }
  }

  lemma {:induction false} CountFlat(failures: nat, log: History, b: nat)
    requires CountsSound(failures, log) && b <= |log.trace|
    ensures log.counts[b] == failures <==> forall f: nat :: Failure(log.trace, f) ==> f < b
  {
    if log.counts[b] == failures {
      forall f: nat | Failure(log.trace, f) ensures f < b {
        CountOrder(failures, log, f, b);
      }
    } else if forall f: nat :: Failure(log.trace, f) ==> f < b {
      Flat(failures, log, b, |log.trace|);
    }
  }

  lemma {:induction false} Flat(failures: nat, log: History, b: nat, n: nat)
    requires CountsSound(failures, log) && b <= n <= |log.trace|
    requires forall f: nat :: Failure(log.trace, f) ==> f < b
    ensures log.counts[n] == log.counts[b]
    decreases n
  {
    if b < n {
      Flat(failures, log, b, n - 1);
      assert !Failure(log.trace, n - 1);
    }
  }

  // One more outcome.

  lemma CountsNoted(failures: nat, log: History, o: Outcome, counted: bool)
    requires CountsSound(failures, log) && o.began <= |log.trace|
    requires counted <==> Failure(log.trace + [o], |log.trace|)
    ensures var n := failures + if counted then 1 else 0; CountsSound(n, Noted(log, o, counted, n))
  {
    PastStays(log.trace, o);
    hide Failure;
  }

  lemma LatestNoted(log: History, o: Outcome, counted: bool, failures: nat)
    requires LatestSound(log) && (counted <==> Failure(log.trace + [o], |log.trace|))
    ensures LatestSound(Noted(log, o, counted, failures))
  {
    PastStays(log.trace, o);
    var log1 := Noted(log, o, counted, failures);
    hide Overtaken;
    forall i: nat, k | Rejection(log1.trace, i, k) ensures k in log1.latest && i <= log1.latest[k] {
      assert i < |log.trace| ==> Rejection(log.trace, i, k);
    }
  }

  /** A failure ends every recovery. */
  lemma FailureUnrecovers(t: seq<Outcome>, o: Outcome)
    requires Failure(t + [o], |t|) && forall i :: 0 <= i < |t| ==> t[i].began <= i
    requires o.began <= |t|
    ensures !Recovered(t + [o])
  {
    hide Overtaken, Answered;
    forall j: nat ensures !Recovers(t + [o], j) {
      assert j < |t + [o]| ==> (t + [o])[j].began <= |t|;
    }
  }

  lemma RecoversStays(t: seq<Outcome>, o: Outcome, j: nat)
    requires !Failure(t + [o], |t|) && j < |t|
    ensures Recovers(t + [o], j) <==> Recovers(t, j)
  {
    PastStays(t, o);
    hide Overtaken, Answered;
    if Recovers(t, j) {
      forall f: nat | Failure(t + [o], f) ensures f < t[j].began { assert f < |t| ==> Failure(t, f); }
      forall i: nat, k | Rejection(t + [o], i, k) ensures Answered(t + [o], i, k, j + 1) {
        assert i < |t| ==> Rejection(t, i, k);
        AnsweredStays(t, o, i, k, j + 1);
      }
    }
    if Recovers(t + [o], j) {
      forall f: nat | Failure(t, f) ensures f < t[j].began { assert Failure(t + [o], f); }
      forall i: nat, k | Rejection(t, i, k) ensures Answered(t, i, k, j + 1) {
        assert Rejection(t + [o], i, k);
        AnsweredStays(t, o, i, k, j + 1);
      }
    }
  }

  /** An outcome that is no failure can only add a recovery of its own. */
  lemma RecoveredNow(t: seq<Outcome>, o: Outcome)
    requires !Failure(t + [o], |t|)
    ensures Recovered(t + [o]) <==> Recovered(t) || Recovers(t + [o], |t|)
  {
    PastStays(t, o);
    forall j: nat | j < |t| ensures Recovers(t + [o], j) <==> Recovers(t, j) {
      RecoversStays(t, o, j);
    }
    hide Overtaken, Answered, Rejection;
    if forall f: nat :: !Failure(t, f) {
      assert forall f: nat :: Failure(t + [o], f) ==> f < |t|;
    }
    if forall f: nat :: !Failure(t + [o], f) {
      assert forall f: nat :: Failure(t, f) ==> Failure(t + [o], f);
    }
    OnlyItsOwn(t, o);
  }

  lemma OnlyItsOwn(t: seq<Outcome>, o: Outcome)
    requires forall j: nat :: j < |t| ==> (Recovers(t + [o], j) <==> Recovers(t, j))
    ensures (exists j: nat :: Recovers(t + [o], j)) <==> (exists j: nat :: Recovers(t, j)) || Recovers(t + [o], |t|)
  {
    hide Overtaken, Answered, Rejection, Failure;
    if exists j: nat :: Recovers(t, j) {
      var j: nat :| Recovers(t, j);
      assert Recovers(t + [o], j);
    }
  }

  lemma AnsweredNow(t: seq<Outcome>, o: Outcome, i: nat, key: Key)
    ensures Answered(t + [o], i, key, |t| + 1) <==> Answered(t, i, key, |t|) || Answers(t + [o], i, key, |t|)
  {
    AnsweredStays(t, o, i, key, |t|);
    hide Answers;
    if Answered(t + [o], i, key, |t|) {
      var j: nat :| j < |t| && Answers(t + [o], i, key, j);
      assert j < |t| + 1 && Answers(t + [o], i, key, j);
    }
  }

  /** Nothing answers a rejection that has only just happened. */
  lemma NewIsUnanswered(t: seq<Outcome>, key: Key, n: nat)
    requires (forall i :: 0 <= i < |t| ==> t[i].began <= i) && n + 1 >= |t|
    ensures !Answered(t, n, key, |t|)
  {
  }

  // Failures.

  /** A counted rejection: the sink remembers it, or has overflowed. */
  lemma FailureRemembers(sink: Sink, log: History, o: Outcome, key: Key, size: nat)
    requires LogInv(sink, log) && o.began <= |log.trace|
    requires Of(o, key) && Failure(log.trace + [o], |log.trace|)
    ensures Remembers(Record(sink, true, true, 0, key, true, size), Noted(log, o, true, sink.failures + 1))
  {
    hide Reject, Overtaken, Answers, Answered, LatestSound, CountsSound, FailingExactly;
    assert o.failed;
    hide Failure;
    var log1 := Noted(log, o, true, sink.failures + 1);
    BeganBefore(sink.failures, log);
    NewIsUnanswered(log1.trace, key, |log.trace|);
    RejectOverflows(sink.(failures := sink.failures + 1, failing := true), key, size);
    forall k | k in log.latest && k != key
      ensures log.latest[k] < |log.trace|
      ensures Answered(log1.trace, log.latest[k], k, |log1.trace|) <==> Answered(log.trace, log.latest[k], k, |log.trace|)
    {
      InTrace(log, k);
      AnsweredNow(log.trace, o, log.latest[k], k);
      NotAnswering(log1.trace, log.latest[k], k, |log.trace|);
    }
  }

  lemma InTrace(log: History, k: Key)
    requires LatestSound(log) && k in log.latest
    ensures log.latest[k] < |log.trace|
  {
  }

  lemma LatestFails(log: History, k: Key)
    requires LatestSound(log) && k in log.latest
    ensures Failure(log.trace, log.latest[k])
  {
  }

  lemma NotAnswering(t: seq<Outcome>, i: nat, key: Key, j: nat)
    requires j < |t| && (t[j].failed || !Of(t[j], key) || Overtaken(t, j))
    ensures !Answers(t, i, key, j)
  {
  }

  lemma RejectOverflows(s: Sink, key: Key, size: nat)
    ensures var s1 := Reject(s, key, size);
            && (s.overflow ==> s1.overflow)
            && (key !in s1.rejected ==> s1.overflow && s1.rejected == s.rejected)
            && (key in s1.rejected ==> s1.rejected == s.rejected[key := s1.rejected[key]] && s1.rejected[key].version == s.failures)
  {
  }

  lemma BeganBefore(failures: nat, log: History)
    requires CountsSound(failures, log)
    ensures |log.counts| == |log.trace| + 1
    ensures forall i :: 0 <= i < |log.trace| ==> log.trace[i].began <= i
  {
  }

  lemma FailureLogged(sink: Sink, log: History, o: Outcome, key: Key, size: nat)
    requires LogInv(sink, log) && o.began <= |log.trace|
    requires Of(o, key) && Failure(log.trace + [o], |log.trace|)
    ensures LogInv(Record(sink, true, true, 0, key, true, size), Noted(log, o, true, sink.failures + 1))
  {
    hide Remembers, LatestSound, CountsSound, Failure, Recovered, Reject, Of;
    FailureRemembers(sink, log, o, key, size);
    CountsNoted(sink.failures, log, o, true);
    LatestNoted(log, o, true, sink.failures + 1);
    BeganBefore(sink.failures, log);
    FailureUnrecovers(log.trace, o);
    RejectShape(sink.(failures := sink.failures + 1, failing := true), key, size);
  }

  /** An outcome that is no guest event's, and no success, leaves what is remembered as it was. */
  lemma OtherRemembers(sink: Sink, sink1: Sink, log: History, o: Outcome, failures: nat, counted: bool)
    requires LatestSound(log) && Remembers(sink, log) && |log.counts| == |log.trace| + 1
    requires sink1.rejected == sink.rejected && sink1.overflow == sink.overflow
    requires (forall k :: !Of(o, k)) || (!counted && Overtaken(log.trace + [o], |log.trace|))
    ensures Remembers(sink1, Noted(log, o, counted, failures))
  {
    hide Overtaken, Answers, Answered;
    var log1 := Noted(log, o, counted, failures);
    assert log1.latest == log.latest by {
      if counted && (o.kind.Guest? || o.kind.Retried?) {
        assert Of(o, o.kind.key);
      }
    }
    forall k | k in log.latest
      ensures log.latest[k] < |log.trace|
      ensures Answered(log1.trace, log.latest[k], k, |log1.trace|) <==> Answered(log.trace, log.latest[k], k, |log.trace|)
    {
      InTrace(log, k);
      AnsweredNow(log.trace, o, log.latest[k], k);
      NotAnswering(log1.trace, log.latest[k], k, |log.trace|);
    }
  }

  lemma OtherFailureLogged(sink: Sink, log: History, o: Outcome)
    requires LogInv(sink, log) && o.began <= |log.trace| && o.failed && (o.kind.Host? || o.kind.Flushed?)
    ensures LogInv(sink.(failures := sink.failures + 1, failing := true), Noted(log, o, true, sink.failures + 1))
  {
    hide Remembers, LatestSound, Recovered;
    var sink1 := sink.(failures := sink.failures + 1, failing := true);
    OtherRemembers(sink, sink1, log, o, sink.failures + 1, true);
    CountsNoted(sink.failures, log, o, true);
    LatestNoted(log, o, true, sink.failures + 1);
    FailureUnrecovers(log.trace, o);
  }

  // Successes and what is ignored.

  /** A successful flush and the outcome of an overtaken retry leave the sink as it is. */
  lemma IgnoredLogged(sink: Sink, sink1: Sink, log: History, o: Outcome)
    requires LogInv(sink, log) && o.began <= |log.trace| && sink1 == sink.(rejectedBytes := sink1.rejectedBytes)
    requires (o.kind.Flushed? && !o.failed) || Overtaken(log.trace + [o], |log.trace|)
    ensures LogInv(sink1, Noted(log, o, false, sink.failures))
  {
    hide Remembers, LatestSound, Recovered;
    OtherRemembers(sink, sink1, log, o, sink.failures, false);
    CountsNoted(sink.failures, log, o, false);
    LatestNoted(log, o, false, sink.failures);
    RecoveredNow(log.trace, o);
  }

  /** A success forgets its key exactly when it answers the key's latest rejection. */
  lemma SuccessRemembers(sink: Sink, log: History, o: Outcome, before: nat, key: Key, guest: bool)
    requires LogInv(sink, log) && o.began <= |log.trace| && before == log.counts[o.began]
    requires !o.failed && !o.kind.Flushed? && !Overtaken(log.trace + [o], |log.trace|)
    requires if guest then Of(o, key) else o.kind.Host?
    ensures Remembers(Accept(sink, before, key, guest), Noted(log, o, false, sink.failures))
  {
    hide Accept, CountsSound, LatestSound, Recovered;
    hide Overtaken, Answered, Failure;
    var log1 := Noted(log, o, false, sink.failures);
    AcceptShape(sink, before, key, guest);
    BeganBefore(sink.failures, log);
    forall k | k in log.latest
      ensures log.latest[k] < |log.trace|
      ensures Answered(log1.trace, log.latest[k], k, |log1.trace|) <==>
                Answered(log.trace, log.latest[k], k, |log.trace|) || (guest && k == key && log.latest[k] < o.began)
      ensures log.counts[log.latest[k] + 1] <= before <==> log.latest[k] < o.began
    {
      InTrace(log, k);
      LatestFails(log, k);
      AnsweredNow(log.trace, o, log.latest[k], k);
      CountOrder(sink.failures, log, log.latest[k], o.began);
    }
  }

  /** The sink is all clear exactly when the history has just recovered. */
  lemma ClearIsRecovery(sink: Sink, log: History, o: Outcome, rejected: map<Key, Rejected>)
    requires CountsSound(sink.failures, log) && LatestSound(log) && o.began <= |log.trace|
    requires !o.failed && !o.kind.Flushed? && !Overtaken(log.trace + [o], |log.trace|)
    requires Remembers(sink.(rejected := rejected), Noted(log, o, false, sink.failures)) && !sink.overflow
    ensures log.counts[o.began] == sink.failures && rejected == map[] <==> Recovers(log.trace + [o], |log.trace|)
  {
    var t1 := log.trace + [o];
    PastStays(log.trace, o);
    CountFlat(sink.failures, log, o.began);
    hide Overtaken, CountsSound;
    assert !Failure(t1, |log.trace|);
    if rejected == map[] {
      forall i: nat, k | Rejection(t1, i, k) ensures Answered(t1, i, k, |t1|) {
        assert Rejection(log.trace, i, k);
        EarlierAnswered(t1, i, log.latest[k], k);
      }
    }
    if Recovers(t1, |log.trace|) {
      forall k | k in log.latest ensures Answered(t1, log.latest[k], k, |t1|) {
        assert Rejection(t1, log.latest[k], k);
      }
      forall f: nat | Failure(log.trace, f) ensures f < o.began { assert Failure(t1, f); }
    }
  }

  /** What answers a later rejection of a key answers an earlier one. */
  lemma EarlierAnswered(t: seq<Outcome>, i: nat, l: nat, key: Key)
    requires i <= l && Answered(t, l, key, |t|)
    ensures Answered(t, i, key, |t|)
  {
    var j: nat :| j < |t| && Answers(t, l, key, j);
    assert Answers(t, i, key, j);
  }

  lemma RemembersAlike(sink: Sink, sink1: Sink, log: History)
    requires Remembers(sink, log) && sink1.rejected == sink.rejected && sink1.overflow == sink.overflow
    ensures Remembers(sink1, log)
  {
  }

  lemma AcceptShape(s: Sink, before: nat, key: Key, guest: bool)
    ensures var s1 := Accept(s, before, key, guest);
            && s1.failures == s.failures && s1.overflow == s.overflow
            && s1.failing == (s.failing && !(before == s.failures && s1.rejected == map[]))
            && s1.rejected == if guest && key in s.rejected && s.rejected[key].version <= before
                              then s.rejected - {key} else s.rejected
  {
  }

  lemma SuccessLogged(sink: Sink, log: History, o: Outcome, before: nat, key: Key, guest: bool)
    requires LogInv(sink, log) && o.began <= |log.trace| && before == log.counts[o.began]
    requires !o.failed && !o.kind.Flushed? && !Overtaken(log.trace + [o], |log.trace|)
    requires if guest then Of(o, key) else o.kind.Host?
    ensures LogInv(Accept(sink, before, key, guest), Noted(log, o, false, sink.failures))
  {
    hide Remembers, LatestSound, CountsSound, Recovered, Recovers, Overtaken, Of, Release;
    var sink1 := Accept(sink, before, key, guest);
    SuccessRemembers(sink, log, o, before, key, guest);
    CountsNoted(sink.failures, log, o, false);
    LatestNoted(log, o, false, sink.failures);
    RecoveredNow(log.trace, o);
    AcceptShape(sink, before, key, guest);
    hide Accept;
    RemembersAlike(sink1, sink.(rejected := sink1.rejected), Noted(log, o, false, sink.failures));
    if !sink.overflow {
      ClearIsRecovery(sink, log, o, sink1.rejected);
    }
  }

  // Writes and the retry in flight.

  ghost predicate WritesSound(s: System) {
    && |s.log.counts| == |s.log.trace| + 1
    && forall id :: id in s.writes ==>
         s.writes[id].began <= |s.log.trace| && s.writes[id].before == s.log.counts[s.writes[id].began]
  }

  ghost predicate PassedBy(t: seq<Outcome>, began: nat, rejection: nat, key: Key) {
    exists j: nat :: Overtakes(t, began, rejection, key, j)
  }

  /** The record being retried is still the one remembered exactly when nothing has overtaken the retry. */
  ghost predicate RetrySound(s: System) {
    s.retry.Retrying? ==>
      var t, r := s.retry.ticket, s.retry;
      && r.rejection < r.began <= |s.log.trace| && |s.log.counts| == |s.log.trace| + 1
      && t.before == s.log.counts[r.began] && t.version == s.log.counts[r.rejection + 1]
      && Rejection(s.log.trace, r.rejection, t.key)
      && (Current(s.sink, t) <==> !PassedBy(s.log.trace, r.began, r.rejection, t.key))
  }

  ghost predicate Inv(s: System) {
    LogInv(s.sink, s.log) && WritesSound(s) && RetrySound(s)
  }

  lemma PassedNow(t: seq<Outcome>, o: Outcome, began: nat, rejection: nat, key: Key)
    ensures PassedBy(t + [o], began, rejection, key) <==>
              PassedBy(t, began, rejection, key) || Overtakes(t + [o], began, rejection, key, |t|)
  {
    if PassedBy(t, began, rejection, key) {
      var j: nat :| Overtakes(t, began, rejection, key, j);
      assert Overtakes(t + [o], began, rejection, key, j);
    }
    if PassedBy(t + [o], began, rejection, key) {
      var j: nat :| Overtakes(t + [o], began, rejection, key, j);
      assert j < |t| ==> Overtakes(t, began, rejection, key, j);
    }
  }

  lemma OvertakenIsPassed(t: seq<Outcome>, o: Outcome)
    requires o.kind.Retried?
    ensures Overtaken(t + [o], |t|) <==> PassedBy(t, o.began, o.kind.rejection, o.kind.key)
  {
    if PassedBy(t, o.began, o.kind.rejection, o.kind.key) {
      var j: nat :| Overtakes(t, o.began, o.kind.rejection, o.kind.key, j);
      assert Overtakes(t + [o], o.began, o.kind.rejection, o.kind.key, j);
    }
    if Overtaken(t + [o], |t|) {
      var j: nat :| j < |t| && Overtakes(t + [o], o.began, o.kind.rejection, o.kind.key, j);
      assert Overtakes(t, o.began, o.kind.rejection, o.kind.key, j);
    }
  }

  /** Failing or succeeding, a write of the retried key overtakes the retry exactly when it replaces or removes the record. */
  lemma RecordOvertakes(sink: Sink, t: Ticket, failed: bool, before: nat, key: Key, guest: bool, size: nat)
    requires t.version <= sink.failures
    ensures var sink1 := Record(sink, failed, true, before, key, guest, size);
            Current(sink1, t) <==> Current(sink, t) && !(guest && key == t.key && (failed || t.version <= before))
  {
    if failed && guest {
      RejectOverflows(sink.(failures := sink.failures + 1, failing := true), key, size);
      hide Reject;
    } else if !failed {
      AcceptShape(sink, before, key, guest);
      hide Accept;
    }
  }

  lemma WriteKeepsRetry(s: System, id: nat, failed: bool, size: nat)
    requires Inv(s) && id in s.writes
    ensures RetrySound(Apply(s, FinishWrite(id, failed, size)))
  {
    hide Remembers, LatestSound, FailingExactly, Overtaken, PassedBy, Record, Current, CountsSound;
    if s.retry.Retrying? {
      var w, t, r := s.writes[id], s.retry.ticket, s.retry;
      var o := Outcome(if w.guest then Guest(w.key) else Host, w.began, failed);
      VersionCounted(s);
      RecordOvertakes(s.sink, t, failed, w.before, w.key, w.guest, size);
      CountOrder(s.sink.failures, s.log, r.rejection, w.began);
      PassedNow(s.log.trace, o, r.began, r.rejection, t.key);
      PastStays(s.log.trace, o);
      hide Failure;
    }
  }

  lemma VersionCounted(s: System)
    requires LogInv(s.sink, s.log) && RetrySound(s) && s.retry.Retrying?
    ensures s.retry.ticket.version <= s.sink.failures
  {
  }

  lemma NotRetried(t: seq<Outcome>, o: Outcome)
    requires !o.kind.Retried?
    ensures !Overtaken(t + [o], |t|) && (Failure(t + [o], |t|) <==> o.failed)
  {
  }

  lemma WriteLogged(sink: Sink, log: History, w: Write, failed: bool, size: nat)
    requires LogInv(sink, log) && w.began <= |log.trace| && |log.counts| == |log.trace| + 1 && w.before == log.counts[w.began]
    ensures var sink1 := Record(sink, failed, true, w.before, w.key, w.guest, size);
            LogInv(sink1, Noted(log, Outcome(if w.guest then Guest(w.key) else Host, w.began, failed), failed, sink1.failures))
  {
    hide LogInv, Reject, Accept, Overtaken, Failure;
    var o := Outcome(if w.guest then Guest(w.key) else Host, w.began, failed);
    NotRetried(log.trace, o);
    if !failed {
      SuccessLogged(sink, log, o, w.before, w.key, w.guest);
      AcceptShape(sink, w.before, w.key, w.guest);
    } else if w.guest {
      FailureLogged(sink, log, o, w.key, size);
      RejectShape(sink.(failures := sink.failures + 1, failing := true), w.key, size);
    } else {
      OtherFailureLogged(sink, log, o);
    }
  }

  lemma FinishWriteKeeps(s: System, id: nat, failed: bool, size: nat)
    requires Inv(s) && id in s.writes
    ensures Inv(Apply(s, FinishWrite(id, failed, size)))
  {
    hide LogInv, RetrySound, Record;
    WriteKeepsRetry(s, id, failed, size);
    WriteLogged(s.sink, s.log, s.writes[id], failed, size);
  }

  lemma FlushKeeps(s: System, failed: bool)
    requires Inv(s)
    ensures Inv(Apply(s, Flush(failed)))
  {
    hide LogInv, Overtaken, PassedBy, Failure;
    var o := Outcome(Flushed, |s.log.trace|, failed);
    NotRetried(s.log.trace, o);
    PastStays(s.log.trace, o);
    if s.retry.Retrying? {
      PassedNow(s.log.trace, o, s.retry.began, s.retry.rejection, s.retry.ticket.key);
    }
    if failed {
      OtherFailureLogged(s.sink, s.log, o);
    } else {
      IgnoredLogged(s.sink, s.sink, s.log, o);
    }
  }

  lemma LogAlike(sink: Sink, sink1: Sink, log: History)
    requires LogInv(sink, log) && sink1.failures == sink.failures
    requires sink1.overflow == sink.overflow && sink1.failing == sink.failing && sink1.rejected.Keys == sink.rejected.Keys
    requires forall k :: k in sink.rejected ==> sink1.rejected[k].version == sink.rejected[k].version
    ensures LogInv(sink1, log)
  {
    hide CountsSound, LatestSound, Recovered, Answered;
    forall k ensures k in sink1.rejected <==> k in sink.rejected {
      assert k in sink1.rejected.Keys <==> k in sink.rejected.Keys;
    }
  }

  lemma RememberedRejection(sink: Sink, log: History, key: Key)
    requires LogInv(sink, log) && key in sink.rejected
    ensures key in log.latest && log.latest[key] < |log.trace| && |log.counts| == |log.trace| + 1
    ensures Rejection(log.trace, log.latest[key], key) && sink.rejected[key].version == log.counts[log.latest[key] + 1]
  {
  }

  lemma StartRetryKeeps(s: System, key: Key, version: nat)
    requires Inv(s) && s.retry.Idle? && MayRetry(s.sink, key, version)
    ensures Inv(Apply(s, StartRetry(key, version)))
  {
    hide LogInv, Rejection, Overtakes;
    FailuresCounted(s.sink, s.log);
    RememberedRejection(s.sink, s.log, key);
    LogAlike(s.sink, Apply(s, StartRetry(key, version)).sink, s.log);
    NothingYet(s.log.trace, s.log.latest[key], key);
  }

  lemma NothingYet(t: seq<Outcome>, rejection: nat, key: Key)
    ensures !PassedBy(t, |t|, rejection, key)
  {
  }

  lemma FinishRetryKeeps(s: System, failed: bool)
    requires Inv(s) && s.retry.Retrying?
    ensures Inv(Apply(s, FinishRetry(failed)))
  {
    hide LogInv, PassedBy, Overtaken, Failure, Reject, Accept;
    var t, r := s.retry.ticket, s.retry;
    var o := Outcome(Retried(t.key, r.rejection), r.began, failed);
    OvertakenIsPassed(s.log.trace, o);
    if !Current(s.sink, t) {
      IgnoredLogged(s.sink, EndRetry(s.sink, t, failed), s.log, o);
    } else {
      LogAlike(s.sink, Landed(s).sink, s.log);
      if failed {
        CountedFailure(s.log.trace, o);
        FailureLogged(Landed(s).sink, s.log, o, t.key, t.size);
        RejectShape(Landed(s).sink.(failures := s.sink.failures + 1, failing := true), t.key, t.size);
      } else {
        SuccessLogged(Landed(s).sink, s.log, o, t.before, t.key, true);
        AcceptShape(Landed(s).sink, t.before, t.key, true);
      }
    }
  }

  lemma CountedFailure(t: seq<Outcome>, o: Outcome)
    requires o.failed && !Overtaken(t + [o], |t|)
    ensures Failure(t + [o], |t|)
  {
  }

  lemma StepKeeps(s: System, step: Step)
    requires Inv(s) && Enabled(s, step)
    ensures Inv(Apply(s, step))
  {
    hide LogInv;
    match step
    case StartWrite(_, _, _) => FailuresCounted(s.sink, s.log);
    case FinishWrite(id, failed, size) => FinishWriteKeeps(s, id, failed, size);
    case Flush(failed) => FlushKeeps(s, failed);
    case StartRetry(key, version) => StartRetryKeeps(s, key, version);
    case FinishRetry(failed) => FinishRetryKeeps(s, failed);
  }

  lemma FailuresCounted(sink: Sink, log: History)
    requires LogInv(sink, log)
    ensures |log.counts| == |log.trace| + 1 && log.counts[|log.trace|] == sink.failures
  {
  }

  lemma {:induction false} RunKeeps(s: System, steps: seq<Step>)
    requires Inv(s) && Runs(s, steps)
    ensures Inv(Exec(s, steps))
    decreases |steps|
  {
    hide Inv, Enabled, Apply;
    if steps != [] {
      StepKeeps(s, steps[0]);
      RunKeeps(Apply(s, steps[0]), steps[1..]);
    }
  }

  // When rejections overflow what can be remembered.

  /** Bytes that remembering the key anew gives back: its record's, unless a retry holds them. */
  function Freed(s: System, key: Key): nat {
    if key in s.sink.rejected && !s.sink.rejected[key].inflight then s.sink.rejected[key].size else 0
  }

  /** No place for a new key, no encoded copy, or no room for it beside the bytes held. */
  ghost predicate Unkeepable(s: System, key: Key, size: nat) {
    || (key !in s.sink.rejected && |s.sink.rejected| >= 4096)
    || size == 0
    || size > 64 * 1024 * 1024 - (HeldBytes(s) - Freed(s, key))
  }

  /** The step is a counted rejection of a guest event whose copy cannot be kept. */
  ghost predicate Overflows(s: System, step: Step)
    requires Enabled(s, step)
  {
    match step
    case FinishWrite(id, failed, size) => failed && s.writes[id].guest && Unkeepable(s, s.writes[id].key, size)
    case FinishRetry(failed) => failed && Current(s.sink, s.retry.ticket) && s.retry.ticket.size == 0
    case _ => false
  }

  /** Rejecting remembers the key with its whole copy, or overflows: with no room for the copy the key alone is remembered. */
  lemma RejectionKept(s: Sink, key: Key, size: nat, held: int)
    requires held == s.rejectedBytes - if key in s.rejected && !s.rejected[key].inflight then s.rejected[key].size else 0
    ensures var sink := Record(s, true, true, 0, key, true, size);
            var full := key !in s.rejected && |s.rejected| >= 4096;
            var kept := !full && 0 < size <= 64 * 1024 * 1024 - held;
            && (sink.overflow <==> s.overflow || !kept)
            && (kept ==> key in sink.rejected && sink.rejected[key] == Rejected(s.failures + 1, size, false))
            && (!kept && !full ==> key in sink.rejected && sink.rejected[key] == Rejected(s.failures + 1, 0, false))
  {
  }

  lemma LandedBytes(s: System)
    requires OutputHealth.Inv(s) && s.retry.Retrying? && Current(s.sink, s.retry.ticket)
    ensures var k := s.retry.ticket.key;
            && Landed(s).sink.rejected[k] == s.sink.rejected[k].(inflight := false)
            && s.sink.rejected[k].size == s.retry.ticket.size <= s.sink.rejectedBytes <= 64 * 1024 * 1024
  {
    BytesWithout(s.sink.rejected, s.retry.ticket.key);
  }

  lemma OverflowRaised(s: System, step: Step)
    requires OutputHealth.Inv(s) && Enabled(s, step)
    ensures Apply(s, step).sink.overflow <==> s.sink.overflow || Overflows(s, step)
    ensures step.FinishWrite? && step.failed && s.writes[step.id].guest && !Overflows(s, step) ==>
              var key := s.writes[step.id].key;
              && key in Apply(s, step).sink.rejected
              && Apply(s, step).sink.rejected[key] == Rejected(s.sink.failures + 1, step.size, false)
  {
    hide Reject, Bytes;
    match step
    case FinishWrite(id, failed, size) =>
      var w := s.writes[id];
      RejectionKept(s.sink, w.key, size, s.sink.rejectedBytes - Freed(s, w.key));
      AcceptShape(s.sink, w.before, w.key, w.guest);
      hide Accept;
    case FinishRetry(failed) =>
      var t := s.retry.ticket;
      if Current(s.sink, t) {
        LandedBytes(s);
        RejectionKept(Landed(s).sink, t.key, t.size, s.sink.rejectedBytes - t.size);
        AcceptShape(Landed(s).sink, t.before, t.key, true);
        hide Accept;
      }
    case _ =>
  }

  /** Some rejection of the run could not be kept. */
  ghost predicate Overflowed(s: System, steps: seq<Step>)
    requires Runs(s, steps)
    decreases |steps|
  {
    steps != [] && (Overflows(s, steps[0]) || Overflowed(Apply(s, steps[0]), steps[1..]))
  }

  lemma {:induction false} OverflowExactly(s: System, steps: seq<Step>)
    requires OutputHealth.Inv(s) && Runs(s, steps)
    ensures Exec(s, steps).sink.overflow <==> s.sink.overflow || Overflowed(s, steps)
    decreases |steps|
  {
    hide OutputHealth.Inv, Enabled, Apply, Overflows;
    if steps != [] {
      OverflowRaised(s, steps[0]);
      OutputHealth.StepKeeps(s, steps[0]);
      OverflowExactly(Apply(s, steps[0]), steps[1..]);
    }
  }

  /**
   Readiness told from the outcomes. Output is healthy exactly when every rejection could
   be kept and there was no failure, or a write begun after the last one succeeded
   with every rejected key accepted by then in an attempt begun after its rejection.
   The failure of an overtaken retry is the one kind that does not count.
   */
  lemma HealthyExactly(steps: seq<Step>)
    requires Runs(START, steps)
    ensures var s := Exec(START, steps); Healthy(s.sink) <==> !Overflowed(START, steps) && Recovered(s.log.trace)
  {
    assert Inv(START) && OutputHealth.Inv(START);
    hide Overflowed;
    RunKeeps(START, steps);
    OverflowExactly(START, steps);
  }

  /** When healthy, every rejection but an overtaken retry's was answered by an attempt begun after it. */
  lemma HealthyMeansAnswered(steps: seq<Step>, i: nat, key: Key)
    requires Runs(START, steps) && Healthy(Exec(START, steps).sink) && Rejection(Exec(START, steps).log.trace, i, key)
    ensures var t := Exec(START, steps).log.trace; Answered(t, i, key, |t|)
  {
    HealthyExactly(steps);
    var t := Exec(START, steps).log.trace;
    var j: nat :| Recovers(t, j);
    var a: nat :| a < j + 1 && Answers(t, i, key, a);
    assert a < |t| && Answers(t, i, key, a);
  }

  /** An event is rejected, a retry of it starts, the event is accepted live, and the retry fails. */
  const OVERTAKING_RUN: seq<Step> :=
    [StartWrite(0, 7, true), FinishWrite(0, true, 5), StartRetry(7, 1),
     StartWrite(1, 7, true), FinishWrite(1, false, 0), FinishRetry(true)]

  const REJECTED_ONCE := History([Outcome(Guest(7), 0, true)], [0, 1], map[7 := 0])

  const REJECTED := System(Sink(true, 1, map[7 := Rejected(1, 5, false)], 5, false), map[], Idle, REJECTED_ONCE)

  const RETRIED := System(
    Sink(true, 1, map[7 := Rejected(1, 5, true)], 5, false), map[1 := Write(7, true, 1, 1)],
    Retrying(Ticket(7, 1, 5, 1), 1, 0), REJECTED_ONCE)

  const OVERTAKING := System(
    FRESH.(failures := 1), map[], Idle,
    History([Outcome(Guest(7), 0, true), Outcome(Guest(7), 1, false), Outcome(Retried(7, 0), 1, true)],
            [0, 1, 1, 1], map[7 := 0]))

  lemma OvertakingRun()
    ensures Runs(START, OVERTAKING_RUN) && Exec(START, OVERTAKING_RUN) == OVERTAKING
  {
    RejectedFirst();
    RetriedNext();
    OvertakenThen();
    hide Apply, Enabled;
    TwoSteps(RETRIED, FinishWrite(1, false, 0), FinishRetry(true), []);
    TwoSteps(REJECTED, StartRetry(7, 1), StartWrite(1, 7, true), [FinishWrite(1, false, 0), FinishRetry(true)] + []);
    TwoSteps(START, StartWrite(0, 7, true), FinishWrite(0, true, 5),
             [StartRetry(7, 1), StartWrite(1, 7, true)] + ([FinishWrite(1, false, 0), FinishRetry(true)] + []));
    assert OVERTAKING_RUN == [StartWrite(0, 7, true), FinishWrite(0, true, 5)]
        + ([StartRetry(7, 1), StartWrite(1, 7, true)] + ([FinishWrite(1, false, 0), FinishRetry(true)] + []));
  }

  lemma RejectedFirst()
    ensures Enabled(START, StartWrite(0, 7, true)) && Enabled(Apply(START, StartWrite(0, 7, true)), FinishWrite(0, true, 5))
    ensures Apply(Apply(START, StartWrite(0, 7, true)), FinishWrite(0, true, 5)) == REJECTED
  {
  }

  lemma RetriedNext()
    ensures Enabled(REJECTED, StartRetry(7, 1)) && Enabled(Apply(REJECTED, StartRetry(7, 1)), StartWrite(1, 7, true))
    ensures Apply(Apply(REJECTED, StartRetry(7, 1)), StartWrite(1, 7, true)) == RETRIED
  {
  }

  lemma OvertakenThen()
    ensures Enabled(RETRIED, FinishWrite(1, false, 0)) && Enabled(Apply(RETRIED, FinishWrite(1, false, 0)), FinishRetry(true))
    ensures Apply(Apply(RETRIED, FinishWrite(1, false, 0)), FinishRetry(true)) == OVERTAKING
  {
    var s1 := Apply(RETRIED, FinishWrite(1, false, 0));
    assert s1.sink == Sink(false, 1, map[], 5, false);
    assert s1.writes == map[] && !Current(s1.sink, RETRIED.retry.ticket);
  }

  /** Healthy output may end with a failed write of a key that no later attempt accepted. */
  lemma OvertakenFailureIsIgnored()
    ensures Runs(START, OVERTAKING_RUN)
    ensures var s := Exec(START, OVERTAKING_RUN); var t := s.log.trace;
            && Healthy(s.sink) && |t| == 3 && t[2].failed && Of(t[2], 7)
            && !Answered(t, 2, 7, |t|) && Overtaken(t, 2)
  {
    OvertakingRun();
    hide Runs, Exec;
    assert Overtakes(OVERTAKING.log.trace, 1, 0, 7, 1);
  }
}
