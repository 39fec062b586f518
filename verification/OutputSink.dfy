/**
 The observed sink as it runs: each method is one section under its mutex and is
 proved to take the step of OutputHealth's state that its name says. A record is
 told from a later one for the same key by its version.
 */
module OutputSink {
  import opened OutputHealth
  import opened Framing

  datatype Candidate = Candidate(key: Key, version: nat)

  predicate Ascending(batch: seq<Candidate>) {
    forall i, j :: 0 <= i < j < |batch| ==> batch[i].version < batch[j].version
  }

  /** `batch` lists exactly the retriable records of `m`. */
  ghost predicate Lists(batch: seq<Candidate>, m: map<Key, Rejected>) {
    && (forall c :: c in batch ==> c.key in m && m[c.key].size != 0 && m[c.key].version == c.version)
    && (forall k :: k in m && m[k].size != 0 ==> Candidate(k, m[k].version) in batch)
  }

  function Insert(c: Candidate, batch: seq<Candidate>): (r: seq<Candidate>)
    ensures |r| == |batch| + 1 && forall d :: d in r <==> d == c || d in batch
    decreases |batch|
  {
    if batch == [] || c.version < batch[0].version then [c] + batch
    else
      assert batch == [batch[0]] + batch[1..];
      [batch[0]] + Insert(c, batch[1..])
  }

  lemma {:induction false} InsertAscends(c: Candidate, batch: seq<Candidate>)
    requires Ascending(batch) && forall d :: d in batch ==> d.version != c.version
    ensures Ascending(Insert(c, batch))
    decreases |batch|
  {
    if batch != [] && batch[0].version <= c.version {
      InsertAscends(c, batch[1..]);
      AscendsAfter(batch[0], Insert(c, batch[1..]));
    } else if batch != [] {
      AscendsAfter(c, batch);
    }
  }

  lemma AscendsAfter(c: Candidate, batch: seq<Candidate>)
    requires Ascending(batch) && forall d :: d in batch ==> c.version < d.version
    ensures Ascending([c] + batch)
  {
  }

  /** Sorting by version, as the library sort does. */
  function ByVersion(batch: seq<Candidate>): (r: seq<Candidate>)
    ensures |r| == |batch| && forall c :: c in r <==> c in batch
    decreases |batch|
  {
    if batch == [] then []
    else
      assert batch == [batch[0]] + batch[1..];
      Insert(batch[0], ByVersion(batch[1..]))
  }

  lemma {:induction false} ByVersionAscends(batch: seq<Candidate>)
    requires forall i, j :: 0 <= i < j < |batch| ==> batch[i].version != batch[j].version
    ensures Ascending(ByVersion(batch))
    decreases |batch|
  {
    if batch != [] {
      ByVersionAscends(batch[1..]);
      InsertAscends(batch[0], ByVersion(batch[1..]));
    }
  }

  /** A sorted listing has exactly the records ahead of its i-th before that one. */
  lemma {:induction false} PlaceIsRank(batch: seq<Candidate>, m: map<Key, Rejected>, i: nat)
    requires Ascending(batch) && Lists(batch, m) && i < |batch|
    ensures |Ahead(m, batch[i].version)| == i
    decreases i
  {
    var ahead := Ahead(m, batch[i].version);
    if i == 0 {
      forall k | k in m && m[k].size != 0 ensures batch[0].version <= m[k].version {
        assert Candidate(k, m[k].version) in batch;
      }
      assert ahead == {};
    } else {
      var last := batch[i - 1];
      PlaceIsRank(batch, m, i - 1);
      forall k | k in ahead ensures k == last.key || k in Ahead(m, last.version) {
        assert Candidate(k, m[k].version) in batch;
      }
      assert ahead == Ahead(m, last.version) + {last.key};
    }
  }

  lemma FirstBatch(all: seq<Candidate>, m: map<Key, Rejected>, k: Key)
    requires Ascending(all) && Lists(all, m) && k in m
    ensures var n := if |all| < RETRY_BATCH then |all| else RETRY_BATCH;
            Candidate(k, m[k].version) in all[..n] <==>
              m[k].size != 0 && |Ahead(m, m[k].version)| < RETRY_BATCH
  {
    var n := if |all| < RETRY_BATCH then |all| else RETRY_BATCH;
    var c := Candidate(k, m[k].version);
    if c in all {
      var i :| 0 <= i < |all| && all[i] == c;
      PlaceIsRank(all, m, i);
      assert i < n ==> all[..n][i] == c;
    } else {
      assert c !in all[..n];
    }
  }

  class ObservedSink {
    var failing: bool
    var failures: nat
    var rejected: map<Key, Rejected>
    var rejectedBytes: int
    var overflow: bool

    function State(): Sink
      reads this
    {
      Sink(failing, failures, rejected, rejectedBytes, overflow)
    }

    constructor ()
      ensures State() == FRESH
    {
      failing, failures, rejected, rejectedBytes, overflow := false, 0, map[], 0, false;
    }

    method ReleaseRecord(record: Rejected)
      modifies this`rejectedBytes
      ensures State() == Release(old(State()), record)
    {
      if !record.inflight {
        rejectedBytes := rejectedBytes - record.size;
      }
    }

    method RejectLocked(key: Key, encoded: nat)
      modifies this
      ensures State() == Reject(old(State()), key, encoded)
    {
      if key !in rejected && |rejected| >= MAX_REJECTED_EVENTS {
        overflow := true;
        return;
      }
      if key in rejected {
        ReleaseRecord(rejected[key]);
      }
      var kept := encoded;
      if encoded == 0 || encoded > MAX_REJECTED_BYTES - rejectedBytes {
        overflow := true;
        kept := 0;
      }
      rejected := rejected[key := Rejected(failures, kept, false)];
      rejectedBytes := rejectedBytes + kept;
    }

    method AcceptLocked(before: nat, key: Key, guest: bool)
      modifies this
      ensures State() == Accept(old(State()), before, key, guest)
    {
      if guest && key in rejected && rejected[key].version <= before {
        ReleaseRecord(rejected[key]);
        rejected := rejected - {key};
      }
      if before == failures && |rejected| == 0 {
        failing := false;
      }
    }

    method RecordLocked(failed: bool, acceptedWrite: bool, before: nat, key: Key, guest: bool, encoded: nat)
      modifies this
      ensures State() == Record(old(State()), failed, acceptedWrite, before, key, guest, encoded)
    {
      if failed {
        failures := failures + 1;
        failing := true;
        if guest {
          RejectLocked(key, encoded);
        }
      } else if acceptedWrite {
        AcceptLocked(before, key, guest);
      }
    }

    /** The copy's length, 0 when the bounded store could not keep one. */
    method EncodedSize(failed: bool, guest: bool, key: Key, size: nat) returns (encoded: nat)
      ensures Record(State(), failed, true, failures, key, guest, encoded)
              == Record(State(), failed, true, failures, key, guest, size)
    {
      encoded := size;
      if failed && guest && !CanRetain(State(), key) {
        SkippedEncodingChangesNothing(State(), key, failures, size);
        encoded := 0;
      }
    }

    /** Exactly the records with fewer than a batch of retriable records ahead, oldest first. */
    method RetryBatch() returns (batch: seq<Candidate>)
      requires forall k, j :: k in rejected && j in rejected && k != j ==> rejected[k].version != rejected[j].version
      ensures Ascending(batch) && |batch| <= RETRY_BATCH
      ensures forall c :: c in batch ==> c.key in rejected && rejected[c.key].version == c.version
      ensures forall k :: k in rejected ==>
                (Candidate(k, rejected[k].version) in batch <==>
                   rejected[k].size != 0 && |Ahead(rejected, rejected[k].version)| < RETRY_BATCH)
    {
      hide Ahead, ByVersion;
      var all: seq<Candidate> := [];
      var todo := rejected.Keys;
      while todo != {}
        invariant todo <= rejected.Keys
        invariant forall c :: c in all ==>
                    c.key in rejected && c.key !in todo && rejected[c.key].size != 0 && rejected[c.key].version == c.version
        invariant forall k :: k in rejected && k !in todo && rejected[k].size != 0 ==>
                    Candidate(k, rejected[k].version) in all
        invariant forall i, j :: 0 <= i < j < |all| ==> all[i].version != all[j].version
        decreases |todo|
      {
        var k :| k in todo;
        if rejected[k].size != 0 {
          assert forall c :: c in all ==> c.key != k;
          all := all + [Candidate(k, rejected[k].version)];
        }
        todo := todo - {k};
      }
      var sorted := ByVersion(all);
      ByVersionAscends(all);
      assert Lists(sorted, rejected);
      batch := sorted[..if |sorted| < RETRY_BATCH then |sorted| else RETRY_BATCH];
      forall k | k in rejected
        ensures Candidate(k, rejected[k].version) in batch <==>
                  rejected[k].size != 0 && |Ahead(rejected, rejected[k].version)| < RETRY_BATCH
      {
        FirstBatch(sorted, rejected, k);
      }
    }

    method StartRetry(candidate: Candidate) returns (ticket: Option<Ticket>)
      modifies this`rejected
      ensures ticket.Some? <==> MayRetry(old(State()), candidate.key, candidate.version)
      ensures ticket.None? ==> State() == old(State())
      ensures ticket.Some? ==> (State(), ticket.value) == BeginRetry(old(State()), candidate.key)
    {
      var key := candidate.key;
      if key !in rejected || rejected[key].version != candidate.version || rejected[key].inflight {
        return None;
      }
      ticket := Some(Ticket(key, candidate.version, rejected[key].size, failures));
      rejected := rejected[key := rejected[key].(inflight := true)];
    }

    method FinishRetry(ticket: Ticket, failed: bool)
      modifies this
      ensures State() == EndRetry(old(State()), ticket, failed)
    {
      if ticket.key !in rejected || rejected[ticket.key].version != ticket.version {
        rejectedBytes := rejectedBytes - ticket.size;
        return;
      }
      rejected := rejected[ticket.key := rejected[ticket.key].(inflight := false)];
      RecordLocked(failed, true, ticket.before, ticket.key, true, ticket.size);
    }
  }
}
