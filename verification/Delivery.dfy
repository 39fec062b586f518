/**
 What a forwarder does to the outside world, as a trace, and what every such trace
 must satisfy. The feed lists the records of the spool in order; a record's
 position is the index after it.
 */
module Delivery {
  import opened Framing

  /** The collector's answer: accepted, refused because an event is invalid, or any other failure. */
  datatype Reply = Accepted | Invalid | Refused

  /** `Read`: the spool was read at `position` and returned up to `count` records. */
  datatype Event =
    | Read(position: nat, count: nat)
    | Post(lo: nat, hi: nat, body: Bytes, reply: Reply)
    | Preserve(index: nat, data: Bytes, ok: bool)
    | Ack(position: nat, ok: bool)

  /**
   `payloads[i]` is what is sent for record i, None when the record cannot be read;
   `preserves` says that an invalid record must be kept elsewhere before it is passed.
   */
  datatype Feed = Feed(payloads: seq<Option<Bytes>>, preserves: bool)

  function Body(payloads: seq<Option<Bytes>>): Bytes
    decreases |payloads|
  {
    if payloads == [] then []
    else
      var last := payloads[|payloads| - 1];
      Body(payloads[..|payloads| - 1]) + (if last.Some? then last.value else [])
  }

  lemma BodyExtends(payloads: seq<Option<Bytes>>, lo: nat, hi: nat)
    requires lo <= hi < |payloads|
    ensures Body(payloads[lo..hi + 1]) ==
            Body(payloads[lo..hi]) + (if payloads[hi].Some? then payloads[hi].value else [])
  {
    var run := payloads[lo..hi + 1];
    assert run[..|run| - 1] == payloads[lo..hi] && run[|run| - 1] == payloads[hi];
  }

  // What a trace says about one record.

  predicate AcceptedAt(t: seq<Event>, k: nat, i: nat) {
    k < |t| && t[k].Post? && t[k].reply.Accepted? && t[k].lo <= i < t[k].hi
  }

  predicate RefusedAloneAt(t: seq<Event>, k: nat, i: nat) {
    k < |t| && t[k].Post? && t[k].reply.Invalid? && t[k].lo == i && t[k].hi == i + 1
  }

  predicate PreservedAt(t: seq<Event>, k: nat, i: nat) {
    k < |t| && t[k].Preserve? && t[k].ok && t[k].index == i
  }

  /** The record was found invalid by a verdict on it alone and, where required, kept after that. */
  ghost predicate SetAside(feed: Feed, t: seq<Event>, i: nat) {
    exists j: nat :: RefusedAloneAt(t, j, i) &&
                     (feed.preserves ==> exists k: nat :: j < k && PreservedAt(t, k, i))
  }

  ghost predicate Settled(feed: Feed, t: seq<Event>, i: nat) {
    i < |feed.payloads| &&
    (feed.payloads[i].None? || (exists k: nat :: AcceptedAt(t, k, i)) || SetAside(feed, t, i))
  }

  // What every trace must satisfy.

  /** Every request carries exactly the records it stands for; so does every preserved copy. */
  ghost predicate Honest(feed: Feed, t: seq<Event>) {
    && (forall k :: 0 <= k < |t| && t[k].Post? ==>
          t[k].lo < t[k].hi <= |feed.payloads| && t[k].body == Body(feed.payloads[t[k].lo..t[k].hi]))
    && (forall k :: 0 <= k < |t| && t[k].Preserve? ==>
          t[k].index < |feed.payloads| && feed.payloads[t[k].index] == Some(t[k].data))
  }

  /** A position is acknowledged, even unsuccessfully, only when every record before it is settled. */
  ghost predicate AcksCovered(feed: Feed, start: nat, t: seq<Event>) {
    forall k, i: nat :: 0 <= k < |t| && t[k].Ack? && start <= i < t[k].position ==> Settled(feed, t[..k], i)
  }

  /** The position an event leaves behind for good. */
  function Past(e: Event): nat {
    match e
    case Read(_, _) => 0
    case Post(_, hi, _, reply) => if reply.Accepted? then hi else 0
    case Preserve(index, _, ok) => if ok then index + 1 else 0
    case Ack(position, ok) => if ok then position else 0
  }

  /** Nothing accepted, preserved or acknowledged is ever sent again. */
  ghost predicate NeverResent(t: seq<Event>) {
    forall j, k :: 0 <= j < k < |t| && t[k].Post? ==> Past(t[j]) <= t[k].lo
  }

  /** A failed acknowledgement is followed by nothing but another attempt at it. */
  ghost predicate AcksRetried(t: seq<Event>) {
    forall k :: 0 <= k < |t| - 1 && t[k].Ack? && !t[k].ok ==> t[k + 1].Ack? && t[k + 1].position == t[k].position
  }

  /** The acknowledgement the trace ends waiting for. */
  predicate Awaits(t: seq<Event>) {
    t != [] && t[|t| - 1].Ack? && !t[|t| - 1].ok
  }

  ghost predicate Covered(feed: Feed, start: nat, t: seq<Event>, done: nat) {
    && start <= done <= |feed.payloads|
    && (forall i: nat :: start <= i < done ==> Settled(feed, t, i))
    && (forall k :: 0 <= k < |t| ==> Past(t[k]) <= done)
  }

  ghost predicate Good(feed: Feed, start: nat, t: seq<Event>, done: nat) {
    && Honest(feed, t)
    && AcksCovered(feed, start, t)
    && NeverResent(t)
    && AcksRetried(t)
    && Covered(feed, start, t, done)
  }

  // Extending a trace.

  lemma SettledStays(feed: Feed, t: seq<Event>, e: Event, i: nat)
    requires Settled(feed, t, i)
    ensures Settled(feed, t + [e], i)
  {
    if k: nat :| AcceptedAt(t, k, i) {
      assert AcceptedAt(t + [e], k, i);
    } else if SetAside(feed, t, i) {
      var j: nat :| RefusedAloneAt(t, j, i) && (feed.preserves ==> exists k: nat :: j < k && PreservedAt(t, k, i));
      assert RefusedAloneAt(t + [e], j, i);
      if feed.preserves {
        var k: nat :| j < k && PreservedAt(t, k, i);
        assert PreservedAt(t + [e], k, i);
      }
    }
  }

  lemma AcksCoveredExtends(feed: Feed, start: nat, t: seq<Event>, e: Event)
    requires AcksCovered(feed, start, t)
    requires e.Ack? ==> forall i: nat :: start <= i < e.position ==> Settled(feed, t, i)
    ensures AcksCovered(feed, start, t + [e])
  {
    hide Settled;
    var t1 := t + [e];
    assert t1[..|t|] == t;
    forall k, i: nat | 0 <= k < |t1| && t1[k].Ack? && start <= i < t1[k].position
      ensures Settled(feed, t1[..k], i)
    {
      assert k < |t| ==> t1[..k] == t[..k];
    }
  }

  /** An event that moves `done` only past records it settles keeps the trace good. */
  lemma Extend(feed: Feed, start: nat, t: seq<Event>, done: nat, e: Event, done': nat)
    requires Good(feed, start, t, done) && done <= done' <= |feed.payloads|
    requires Awaits(t) ==> e.Ack? && e.position == t[|t| - 1].position
    requires e.Post? ==> done <= e.lo < e.hi <= |feed.payloads| && e.body == Body(feed.payloads[e.lo..e.hi])
    requires e.Preserve? ==> e.index < |feed.payloads| && feed.payloads[e.index] == Some(e.data)
    requires e.Ack? ==> e.position <= done
    requires Past(e) <= done'
    requires forall i: nat :: done <= i < done' ==> Settled(feed, t + [e], i)
    ensures Good(feed, start, t + [e], done')
  {
    hide Settled, Body;
    AcksCoveredExtends(feed, start, t, e);
    forall i: nat | start <= i < done ensures Settled(feed, t + [e], i) {
      SettledStays(feed, t, e, i);
    }
  }

  lemma HasRead(feed: Feed, start: nat, t: seq<Event>, done: nat, position: nat, count: nat)
    requires Good(feed, start, t, done) && !Awaits(t)
    ensures Good(feed, start, t + [Read(position, count)], done) && !Awaits(t + [Read(position, count)])
  {
    hide Settled, Body;
    Extend(feed, start, t, done, Read(position, count), done);
  }

  lemma PostedAccepted(feed: Feed, start: nat, t: seq<Event>, done: nat, hi: nat)
    requires Good(feed, start, t, done) && !Awaits(t) && done < hi <= |feed.payloads|
    ensures Good(feed, start, t + [Post(done, hi, Body(feed.payloads[done..hi]), Accepted)], hi)
  {
    hide Good, Body, Awaits;
    var e := Post(done, hi, Body(feed.payloads[done..hi]), Accepted);
    forall i: nat | done <= i < hi ensures Settled(feed, t + [e], i) {
      assert AcceptedAt(t + [e], |t|, i);
    }
    Extend(feed, start, t, done, e, hi);
  }

  /** A refused request settles nothing; that it was about one record alone can be used later. */
  lemma PostedRefused(feed: Feed, start: nat, t: seq<Event>, done: nat, hi: nat, reply: Reply)
    requires Good(feed, start, t, done) && !Awaits(t) && done < hi <= |feed.payloads| && !reply.Accepted?
    ensures Good(feed, start, t + [Post(done, hi, Body(feed.payloads[done..hi]), reply)], done)
    ensures reply.Invalid? && hi == done + 1 ==>
              RefusedAloneAt(t + [Post(done, hi, Body(feed.payloads[done..hi]), reply)], |t|, done)
  {
    hide Good, Body, Awaits;
    Extend(feed, start, t, done, Post(done, hi, Body(feed.payloads[done..hi]), reply), done);
  }

  lemma Preserved(feed: Feed, start: nat, t: seq<Event>, done: nat, ok: bool, j: nat)
    requires Good(feed, start, t, done) && !Awaits(t)
    requires RefusedAloneAt(t, j, done) && done < |feed.payloads| && feed.payloads[done].Some?
    ensures var e := Preserve(done, feed.payloads[done].value, ok);
            && Good(feed, start, t + [e], if ok then done + 1 else done)
            && !Awaits(t + [e]) && RefusedAloneAt(t + [e], j, done)
  {
    hide Good;
    var e := Preserve(done, feed.payloads[done].value, ok);
    if ok {
      assert RefusedAloneAt(t + [e], j, done) && PreservedAt(t + [e], |t|, done);
      assert SetAside(feed, t + [e], done);
    }
    Extend(feed, start, t, done, e, if ok then done + 1 else done);
  }

  /** Without a duty to preserve, the verdict alone lets delivery pass the record. */
  lemma Dropped(feed: Feed, start: nat, t: seq<Event>, done: nat, j: nat)
    requires Good(feed, start, t, done) && done < |feed.payloads|
    requires feed.payloads[done].None? || (!feed.preserves && RefusedAloneAt(t, j, done))
    ensures Good(feed, start, t, done + 1)
  {
    assert Settled(feed, t, done);
  }

  lemma Acknowledged(feed: Feed, start: nat, t: seq<Event>, done: nat, position: nat, ok: bool)
    requires Good(feed, start, t, done) && position <= done
    requires Awaits(t) ==> position == t[|t| - 1].position
    ensures Good(feed, start, t + [Ack(position, ok)], done)
  {
    hide Settled, Body;
    Extend(feed, start, t, done, Ack(position, ok), done);
  }

  // Many process lifetimes.

  /** A lifetime starts at or before some position offered to storage in an earlier one, or at the beginning. */
  ghost predicate Resumes(starts: seq<nat>, traces: seq<seq<Event>>, n: nat) {
    n < |starts| && |starts| == |traces| &&
    (starts[n] == 0 || exists m, k :: 0 <= m < n && 0 <= k < |traces[m]| && traces[m][k].Ack?
                                      && starts[n] <= traces[m][k].position)
  }

  /** Across restarts every record before an acknowledged position was settled in some lifetime. */
  lemma {:induction false} AcrossRestarts(feed: Feed, starts: seq<nat>, traces: seq<seq<Event>>, n: nat, k: nat, i: nat)
    requires |starts| == |traces| && n < |traces|
    requires forall m :: 0 <= m <= n ==> Resumes(starts, traces, m) && AcksCovered(feed, starts[m], traces[m])
    requires k < |traces[n]| && traces[n][k].Ack? && i < traces[n][k].position
    ensures exists m, c :: 0 <= m <= n && 0 <= c <= |traces[m]| && Settled(feed, traces[m][..c], i)
    decreases n
  {
    assert AcksCovered(feed, starts[n], traces[n]) && Resumes(starts, traces, n);
    if starts[n] <= i {
      assert Settled(feed, traces[n][..k], i);
    } else {
      var m, l :| 0 <= m < n && 0 <= l < |traces[m]| && traces[m][l].Ack? && starts[n] <= traces[m][l].position;
      AcrossRestarts(feed, starts, traces, m, l, i);
    }
  }
}
