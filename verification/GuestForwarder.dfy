/**
 The guest event forwarder: settle a pending checkpoint, or deliver the next batch
 and move the checkpoint past what is settled. A record that cannot be read, or that
 the collector refused alone as invalid, is dropped; every other failure keeps it.
 */
module GuestForwarder {
  import opened Framing
  import opened Delivery
  import opened AuditForwarder

  /** A readable record always encodes to something. */
  ghost predicate Encoded(feed: Feed) {
    !feed.preserves && forall i :: 0 <= i < |feed.payloads| && feed.payloads[i].Some? ==> feed.payloads[i].value != []
  }

  lemma {:induction false} EmptyBodyIsUnreadable(payloads: seq<Option<Bytes>>, i: nat)
    requires Body(payloads) == [] && i < |payloads|
    requires forall k :: 0 <= k < |payloads| && payloads[k].Some? ==> payloads[k].value != []
    ensures payloads[i].None?
    decreases |payloads|
  {
    if i < |payloads| - 1 {
      EmptyBodyIsUnreadable(payloads[..|payloads| - 1], i);
    }
  }

  /** Records that cannot be read are settled without being sent. */
  lemma {:induction false} UnreadableIsSettled(feed: Feed, start: nat, t: seq<Event>, done: nat, hi: nat)
    requires Good(feed, start, t, done) && done <= hi <= |feed.payloads|
    requires forall i :: done <= i < hi ==> feed.payloads[i].None?
    ensures Good(feed, start, t, hi)
    decreases hi - done
  {
    hide Good;
    if done < hi {
      Dropped(feed, start, t, done, 0);
      UnreadableIsSettled(feed, start, t, done + 1, hi);
    }
  }

  /** What a script is worth: an outcome that gets on counts one, any other takes two away. */
  function Credit(script: seq<Outcome>): int
    decreases |script|
  {
    if script == [] then 0 else (if Useful(script[0]) then 1 else -2) + Credit(script[1..])
  }

  class Forwarding {
    const feed: Feed
    const start: nat
    var script: seq<Outcome>
    var position: nat
    var pending: Option<nat>
    var spoolCheckpoint: nat
    ghost var trace: seq<Event>
    ghost var done: nat

    /** The checkpoint on the spool is where delivery stands, or the pending one. */
    ghost predicate Valid()
      reads this
    {
      && Encoded(feed)
      && Good(feed, start, trace, done) && done <= |feed.payloads|
      && (pending.None? ==> spoolCheckpoint == position == done && !Awaits(trace))
      && (pending.Some? ==>
            && pending.value == done && position <= done
            && spoolCheckpoint in {position, pending.value}
            && Awaits(trace) && trace[|trace| - 1].position == done)
    }

    /** What the rest of the work costs at most: four for each record, one for a checkpoint still pending. */
    ghost function Cost(): int
      reads this
    {
      4 * (|feed.payloads| - done) + if pending.Some? then 1 else 0
    }

    /** The script has been drawn on since `before`, for at most `n`. */
    ghost predicate Spent(before: seq<Outcome>, n: int)
      reads this
    {
      |script| <= |before| && Credit(before) <= Credit(script) + n
    }

    constructor (feed: Feed, checkpoint: nat, script: seq<Outcome>)
      requires Encoded(feed) && checkpoint <= |feed.payloads|
      ensures Valid() && this.feed == feed && start == position == checkpoint && trace == []
      ensures pending.None? && done == checkpoint && this.script == script
    {
      this.feed, start, position, spoolCheckpoint, pending := feed, checkpoint, checkpoint, checkpoint, None;
      this.script, trace, done := script, [], checkpoint;
    }

    /** Some record of the range can be read. */
    ghost predicate Readable(lo: nat, hi: nat)
      reads this
    {
      lo <= hi <= |feed.payloads| && exists i :: lo <= i < hi && feed.payloads[i].Some?
    }

    /** The n-th event of the trace is one request for the whole range. */
    ghost predicate SentFirst(n: nat, lo: nat, hi: nat)
      reads this
    {
      n < |trace| && trace[n].Post? && trace[n].lo == lo && trace[n].hi == hi
    }

    method Next() returns (o: Outcome)
      modifies this`script
      ensures o == Upcoming(old(script)) && |script| == if old(script) == [] then 0 else |old(script)| - 1
      ensures Spent(old(script), if old(script) == [] then 0 else if Useful(o) then 1 else -2)
    {
      if script == [] {
        return CUT;
      }
      o := script[0];
      script := script[1..];
    }

    method Post(lo: nat, hi: nat, body: Bytes) returns (reply: Reply)
      requires Good(feed, start, trace, done) && !Awaits(trace)
      requires lo == done < hi <= |feed.payloads| && body == Body(feed.payloads[lo..hi])
      modifies this`script, this`trace, this`done
      ensures Good(feed, start, trace, done) && !Awaits(trace)
      ensures reply == Upcoming(old(script)).reply && trace == old(trace) + [Event.Post(lo, hi, body, reply)]
      ensures done == if reply.Accepted? then hi else lo
      ensures Spent(old(script), if !reply.Refused? then 1 else if old(script) == [] then 0 else -2)
    {
      var o := Next();
      reply := o.reply;
      if reply.Accepted? {
        PostedAccepted(feed, start, trace, done, hi);
      } else {
        PostedRefused(feed, start, trace, done, hi, reply);
      }
      trace := trace + [Event.Post(lo, hi, body, reply)];
      if reply.Accepted? {
        done := hi;
      }
    }

    method Gather(lo: nat, hi: nat) returns (body: Bytes)
      requires lo <= hi <= |feed.payloads|
      ensures body == Body(feed.payloads[lo..hi])
    {
      body := [];
      for i := lo to hi
        invariant body == Body(feed.payloads[lo..i])
      {
        BodyExtends(feed.payloads, lo, i);
        if feed.payloads[i].None? {
          continue;
        }
        body := body + feed.payloads[i].value;
      }
    }

    /** How many of the leading records are settled: all of them unless a request failed. */
    method Deliver(lo: nat, hi: nat) returns (settled: nat, failed: bool)
      requires Encoded(feed) && Good(feed, start, trace, done) && !Awaits(trace)
      requires lo == done < hi <= |feed.payloads|
      modifies this`script, this`trace, this`done
      ensures Good(feed, start, trace, done) && !Awaits(trace)
      ensures done == lo + settled <= hi
      ensures !failed <==> settled == hi - lo
      ensures failed ==> |trace| > |old(trace)| && trace[|trace| - 1].Post? && trace[|trace| - 1].reply.Refused?
      ensures !failed ==> Spent(old(script), 1 + settled)
      ensures old(trace) <= trace && (Readable(lo, hi) ==> SentFirst(|old(trace)|, lo, hi))
      ensures failed ==> Spent(old(script), settled - 1) || (script == [] && Spent(old(script), settled + 1))
    {
      hide Good, Body, Credit;
      var body := Gather(lo, hi);
      if body == [] {
        forall i | lo <= i < hi ensures feed.payloads[i].None? {
          EmptyBodyIsUnreadable(feed.payloads[lo..hi], i - lo);
        }
        UnreadableIsSettled(feed, start, trace, done, hi);
        done := hi;
        return hi - lo, false;
      }
      var reply := Post(lo, hi, body);
      match reply
      case Accepted => return hi - lo, false;
      case Invalid => settled, failed := Isolate(lo, hi);
      case Refused => return 0, true;
    }

    method Isolate(lo: nat, hi: nat) returns (settled: nat, failed: bool)
      requires Good(feed, start, trace, done) && !Awaits(trace) && Encoded(feed)
      requires lo == done < hi <= |feed.payloads|
      modifies this`script, this`trace, this`done
      ensures Good(feed, start, trace, done) && !Awaits(trace)
      ensures done == lo + settled <= hi
      ensures !failed <==> settled == hi - lo
      ensures failed ==> |trace| > |old(trace)| && trace[|trace| - 1].Post? && trace[|trace| - 1].reply.Refused?
      ensures !failed ==> Spent(old(script), settled)
      ensures failed ==> Spent(old(script), settled - 2) || (script == [] && Spent(old(script), settled))
      ensures old(trace) <= trace
    {
      hide Good, Credit;
      for i := lo to hi
        invariant Good(feed, start, trace, done) && !Awaits(trace) && done == i && old(trace) <= trace
        invariant Spent(old(script), i - lo)
      {
        if feed.payloads[i].None? {
          Dropped(feed, start, trace, done, 0);
          done := i + 1;
          continue;
        }
        BodyExtends(feed.payloads, i, i);
        var reply := Post(i, i + 1, feed.payloads[i].value);
        if reply.Invalid? {
          Dropped(feed, start, trace, done, |trace| - 1);
          done := i + 1;
        } else if reply.Refused? {
          return i - lo, true;
        }
      }
      return hi - lo, false;
    }

    /** Retried until it succeeds; the spool may have recorded the position even on failure. */
    method AdvanceCheckpoint() returns (failed: bool)
      requires Encoded(feed) && Good(feed, start, trace, done)
      requires pending.Some? && pending.value == done && position <= done
      requires spoolCheckpoint in {position, pending.value}
      requires Awaits(trace) ==> trace[|trace| - 1].position == done
      modifies this`script, this`trace, this`position, this`pending, this`spoolCheckpoint
      ensures Valid()
      ensures failed <==> pending.Some?
      ensures failed <==> !Upcoming(old(script)).storage.Stored?
      ensures failed ==> position == old(position)
      ensures trace == old(trace) + [Ack(old(pending.value), !failed)]
      ensures Spent(old(script), if !failed then 1 else if old(script) == [] then 0 else -2)
      ensures old(script) != [] ==> |script| < |old(script)|
    {
      var o := Next();
      failed := !o.storage.Stored?;
      Acknowledged(feed, start, trace, done, pending.value, !failed);
      trace := trace + [Ack(pending.value, !failed)];
      if !o.storage.Failed? {
        spoolCheckpoint := pending.value;
      }
      if failed {
        return;
      }
      position, pending := pending.value, None;
    }

    method DeliverAndAdvance(hi: nat) returns (failed: bool)
      requires Valid() && pending.None? && position < hi <= |feed.payloads|
      modifies this
      ensures Valid()
      ensures !failed ==> pending.None? && position == hi
      ensures old(trace) <= trace && (Readable(old(position), hi) ==> SentFirst(|old(trace)|, old(position), hi))
      ensures Spent(old(script), old(Cost()) - Cost() - 1)
              || (script == [] && Spent(old(script), old(Cost()) - 2))
    {
      hide Good, Credit;
      var settled, refused := Deliver(position, hi);
      failed := refused;
      if settled > 0 {
        pending := Some(position + settled);
        var unsaved := AdvanceCheckpoint();
        failed := refused || unsaved;
      }
    }

    /** Empty only when no checkpoint is pending and the spool has nothing to read. */
    method ForwardOnce() returns (empty: bool, failed: bool)
      requires Valid()
      modifies this
      ensures Valid()
      ensures old(pending.Some?) ==> !empty && trace == old(trace) + [Ack(old(done), !failed)]
      ensures old(pending.None?) && !Upcoming(old(script)).storage.Failed? ==>
                (empty <==> Upcoming(old(script)).count == 0 || old(position) == |feed.payloads|)
      ensures empty ==> !failed && old(pending.None?) && trace == old(trace) && position == old(position)
      ensures !empty && !failed && old(pending.None?) ==> pending.None? && position > old(position)
      ensures old(pending.None?) && !Upcoming(old(script)).storage.Failed? ==>
                var n := BatchOf(feed, old(position), Upcoming(old(script)).count);
                Readable(old(position), old(position) + n) ==> SentFirst(|old(trace)|, old(position), old(position) + n)
      ensures |script| <= |old(script)| && (old(script) != [] ==> |script| < |old(script)|)
      ensures old(Cost()) == 0 ==> Cost() == 0
      ensures old(Credit(script) >= Cost()) ==> Cost() == 0 || Credit(script) >= Cost()
    {
      hide Good;
      empty := false;
      if pending.Some? {
        failed := AdvanceCheckpoint();
        return;
      }
      var o := Next();
      if o.storage.Failed? {
        return false, true;
      }
      var room := |feed.payloads| - position;
      var limit := if room < BATCH_SIZE then room else BATCH_SIZE;
      var count := if o.count < limit then o.count else limit;
      if count == 0 {
        return true, false;
      }
      failed := DeliverAndAdvance(position + count);
    }

    /**
     Any number of rounds leaves a good trace and an honest checkpoint. With enough useful
     outcomes among the others, and rounds to use them, everything is delivered.
     */
    method Run(rounds: nat)
      requires Valid()
      modifies this
      ensures Valid()
      ensures spoolCheckpoint <= done && forall i: nat :: start <= i < done ==> Settled(feed, trace, i)
      ensures old(Credit(script) >= Cost() && rounds >= |script|) ==>
                pending.None? && spoolCheckpoint == position == |feed.payloads|
    {
      for n := 0 to rounds
        invariant Valid() && |script| <= if n <= |old(script)| then |old(script)| - n else 0
        invariant old(Credit(script) >= Cost()) ==> Cost() == 0 || Credit(script) >= Cost()
      {
        var empty, failed := ForwardOnce();
      }
    }
  }
}
