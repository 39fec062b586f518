/**
 The application audit forwarder: deliver a batch, isolate an invalid one, preserve
 what the collector will never take, checkpoint. The collector, the storage and
 cancellation are a script consumed one outcome per call; a script that has run out
 stands for a cancelled context.
 */
module AuditForwarder {
  import opened Framing
  import opened Delivery

  const BATCH_SIZE: nat := 100

  /** `Unsure`: the position was recorded, yet the call reported an error. */
  datatype Storage = Stored | Unsure | Failed

  /** `count` is how much a read returns at most; `stops` ends an idle wait for good. */
  datatype Outcome = Outcome(reply: Reply, storage: Storage, count: nat, stops: bool, cancels: bool)

  const CUT := Outcome(Refused, Failed, 0, true, true)

  function Upcoming(script: seq<Outcome>): Outcome {
    if script == [] then CUT else script[0]
  }

  predicate NeverStops(script: seq<Outcome>) {
    forall i :: 0 <= i < |script| ==> !script[i].stops
  }

  /** Nothing cancels, and a stop finds the forwarder idle only when it has read all there is. */
  predicate Undisturbed(script: seq<Outcome>) {
    forall i :: 0 <= i < |script| ==> !script[i].cancels && (script[i].stops ==> script[i].count > 0)
  }

  /** An outcome that gets on with whatever it is the outcome of. */
  predicate Useful(o: Outcome) {
    !o.reply.Refused? && o.storage.Stored? && o.count > 0
  }

  function UsefulIn(script: seq<Outcome>): nat
    decreases |script|
  {
    if script == [] then 0 else (if Useful(script[0]) then 1 else 0) + UsefulIn(script[1..])
  }

  predicate NeverInvalid(script: seq<Outcome>) {
    forall i :: 0 <= i < |script| ==> !script[i].reply.Invalid?
  }

  // What becomes of a read.

  /** How many records a read at `position` that returns up to `count` makes a batch of. */
  function BatchOf(feed: Feed, position: nat, count: nat): nat
    requires position <= |feed.payloads|
  {
    var room := |feed.payloads| - position;
    var limit := if room < BATCH_SIZE then room else BATCH_SIZE;
    if count < limit then count else limit
  }

  /** The position last acknowledged, `start` before any. */
  function Acked(t: seq<Event>, start: nat): nat
    decreases |t|
  {
    if t == [] then start
    else
      var last := t[|t| - 1];
      if last.Ack? && last.ok then last.position else Acked(t[..|t| - 1], start)
  }

  /** Nothing yet follows the trace's last event as a read's request would. */
  predicate Quiet(t: seq<Event>) {
    t == [] || !t[|t| - 1].Read?
  }

  /** What may come after a read: its records in one request, or another read if it returned none. */
  predicate Answers(feed: Feed, read: Event, e: Event)
    requires read.Read? && read.position <= |feed.payloads|
  {
    var n := BatchOf(feed, read.position, read.count);
    if n > 0 then e.Post? && e.lo == read.position && e.hi == read.position + n else e.Read?
  }

  /**
   The k-th event, a read, is at the position last acknowledged, and what it returned is
   sent next as one request: all of it up to a hundred records.
   */
  predicate ReadSent(feed: Feed, start: nat, t: seq<Event>, k: nat)
    requires k < |t| && t[k].Read?
  {
    t[k].position == Acked(t[..k], start) <= |feed.payloads| && (k + 1 < |t| ==> Answers(feed, t[k], t[k + 1]))
  }

  predicate ReadsSent(feed: Feed, start: nat, t: seq<Event>) {
    forall k: nat :: k < |t| && t[k].Read? ==> ReadSent(feed, start, t, k)
  }

  lemma ReadStaysSent(feed: Feed, start: nat, t: seq<Event>, e: Event, k: nat)
    requires k < |t| && t[k].Read? && ReadSent(feed, start, t, k)
    requires Quiet(t) || (t[|t| - 1].position <= |feed.payloads| && Answers(feed, t[|t| - 1], e))
    ensures ReadSent(feed, start, t + [e], k)
  {
    hide Acked, Answers;
    assert (t + [e])[..k] == t[..k];
  }

  lemma NewRead(feed: Feed, start: nat, t: seq<Event>, e: Event)
    requires e.Read? && e.position == Acked(t, start) <= |feed.payloads|
    ensures ReadSent(feed, start, t + [e], |t|)
  {
    hide Acked, Answers;
    assert (t + [e])[..|t|] == t;
  }

  lemma ReadsSentNext(feed: Feed, start: nat, t: seq<Event>, e: Event)
    requires ReadsSent(feed, start, t)
    requires e.Read? ==> e.position == Acked(t, start) <= |feed.payloads|
    requires Quiet(t) || (t[|t| - 1].position <= |feed.payloads| && Answers(feed, t[|t| - 1], e))
    ensures ReadsSent(feed, start, t + [e])
  {
    hide Acked, Answers, ReadSent;
    var t1 := t + [e];
    forall k: nat | k < |t1| && t1[k].Read? ensures ReadSent(feed, start, t1, k) {
      if k < |t| {
        assert ReadSent(feed, start, t, k);
        ReadStaysSent(feed, start, t, e, k);
      } else {
        NewRead(feed, start, t, e);
      }
    }
  }

  lemma AckedNext(t: seq<Event>, e: Event, start: nat)
    ensures Acked(t + [e], start) == if e.Ack? && e.ok then e.position else Acked(t, start)
  {
    assert (t + [e])[..|t|] == t;
  }

  class Forwarder {
    const feed: Feed
    const start: nat
    ghost const mayStop: bool
    ghost const calm: bool
    ghost const valid: bool
    var script: seq<Outcome>
    var cancelled: bool
    var checkpoint: nat
    ghost var trace: seq<Event>
    ghost var done: nat

    ghost predicate Valid()
      reads this
    {
      && feed.preserves && (forall i :: 0 <= i < |feed.payloads| ==> feed.payloads[i].Some?)
      && Good(feed, start, trace, done)
      && checkpoint <= done <= |feed.payloads|
      && (mayStop || NeverStops(script))
      && (calm ==> Undisturbed(script) && (cancelled ==> script == []))
      && (valid ==> NeverInvalid(script))
      && ReadsSent(feed, start, trace)
    }

    ghost function Budget(): nat
      reads this
    {
      |script| + if cancelled then 0 else 1
    }

    /** At most `n` useful outcomes of the script have been used up since `before`. */
    ghost predicate Used(before: seq<Outcome>, n: nat)
      reads this
    {
      UsefulIn(before) <= UsefulIn(script) + n
    }

    constructor (payloads: seq<Bytes>, checkpoint: nat, script: seq<Outcome>)
      requires checkpoint <= |payloads|
      ensures Valid() && trace == [] && done == this.checkpoint == start == checkpoint && this.script == script
      ensures mayStop == !NeverStops(script) && calm == Undisturbed(script) && valid == NeverInvalid(script) && !cancelled
      ensures feed == Feed(seq(|payloads|, i requires 0 <= i < |payloads| => Some(payloads[i])), true)
    {
      feed := Feed(seq(|payloads|, i requires 0 <= i < |payloads| => Some(payloads[i])), true);
      start, this.checkpoint, done, trace := checkpoint, checkpoint, checkpoint, [];
      this.script, cancelled, mayStop := script, false, !NeverStops(script);
      calm, valid := Undisturbed(script), NeverInvalid(script);
    }

    method Next() returns (o: Outcome)
      modifies this`script, this`cancelled
      ensures Budget() < old(Budget()) || old(Budget()) == Budget() == 0
      ensures o == Upcoming(old(script)) && cancelled == (old(cancelled) || o.cancels)
      ensures old(NeverStops(script)) ==> NeverStops(script) && (o.stops ==> cancelled)
      ensures old(Undisturbed(script) && (cancelled ==> script == [])) ==>
                Undisturbed(script) && (cancelled ==> script == []) && (o.stops ==> o.count > 0 || cancelled)
      ensures old(NeverInvalid(script)) ==> NeverInvalid(script) && !o.reply.Invalid?
      ensures Used(old(script), if Useful(o) then 1 else 0)
    {
      if script == [] {
        o := CUT;
      } else {
        o := script[0];
        script := script[1..];
      }
      cancelled := cancelled || o.cancels;
    }

    method Post(lo: nat, hi: nat, body: Bytes) returns (reply: Reply)
      requires Valid() && !Awaits(trace)
      requires lo == done < hi <= |feed.payloads| && body == Body(feed.payloads[lo..hi])
      requires Quiet(trace) || (trace[|trace| - 1].position == lo && BatchOf(feed, lo, trace[|trace| - 1].count) == hi - lo)
      modifies this`script, this`cancelled, this`trace, this`done
      ensures Valid() && !Awaits(trace) && Quiet(trace) && Acked(trace, start) == old(Acked(trace, start))
      ensures reply == Upcoming(old(script)).reply && trace == old(trace) + [Event.Post(lo, hi, body, reply)]
      ensures done == if reply.Accepted? then hi else old(done)
      ensures reply.Invalid? && hi == done + 1 ==> trace != [] && RefusedAloneAt(trace, |trace| - 1, done)
      ensures Budget() < old(Budget()) || old(Budget()) == Budget() == 0
      ensures old(cancelled) ==> cancelled
      ensures Used(old(script), if reply.Refused? then 0 else 1) && (valid ==> !reply.Invalid?)
    {
      hide Good, Settled, RefusedAloneAt, Acked, ReadsSent;
      var o := Next();
      reply := o.reply;
      ghost var e := Event.Post(lo, hi, body, reply);
      if reply.Accepted? {
        PostedAccepted(feed, start, trace, done, hi);
      } else {
        PostedRefused(feed, start, trace, done, hi, reply);
      }
      ReadsSentNext(feed, start, trace, e);
      AckedNext(trace, e, start);
      trace := trace + [e];
      if reply.Accepted? {
        done := hi;
      }
    }

    /** Preserve a record refused alone before delivery moves past it. */
    method Reject(i: nat) returns (ok: bool)
      requires Valid() && !Awaits(trace) && Quiet(trace) && i == done < |feed.payloads|
      requires trace != [] && RefusedAloneAt(trace, |trace| - 1, done)
      modifies this`script, this`cancelled, this`trace, this`done
      ensures Valid() && !Awaits(trace) && Quiet(trace) && Acked(trace, start) == old(Acked(trace, start))
      ensures if ok then done == i + 1 else done == i && cancelled
      ensures Budget() <= old(Budget()) && Used(old(script), 1)
    {
      hide Good;
      ghost var j := |trace| - 1;
      while true
        invariant Valid() && !Awaits(trace) && Quiet(trace) && done == i && RefusedAloneAt(trace, j, i)
        invariant Acked(trace, start) == old(Acked(trace, start))
        invariant Budget() <= old(Budget()) && Used(old(script), 0)
        decreases Budget()
      {
        var o := Next();
        ok := o.storage.Stored?;
        Preserved(feed, start, trace, done, ok, j);
        ghost var e := Preserve(i, feed.payloads[i].value, ok);
        ReadsSentNext(feed, start, trace, e);
        AckedNext(trace, e, start);
        trace := trace + [e];
        if ok {
          done := done + 1;
          return;
        }
        if cancelled {
          return;
        }
      }
    }

    /** Deliver one record alone. */
    method DeliverIsolated(i: nat) returns (ok: bool)
      requires Valid() && !Awaits(trace) && Quiet(trace) && i == done < |feed.payloads|
      modifies this`script, this`cancelled, this`trace, this`done
      ensures Valid() && !Awaits(trace) && Quiet(trace) && Acked(trace, start) == old(Acked(trace, start))
      ensures if ok then done == i + 1 else done == i && cancelled
      ensures Budget() <= old(Budget()) && Used(old(script), 2)
    {
      hide Good;
      var record := feed.payloads[i].value;
      BodyExtends(feed.payloads, i, i);
      while true
        invariant Valid() && !Awaits(trace) && Quiet(trace) && done == i && Budget() <= old(Budget())
        invariant Acked(trace, start) == old(Acked(trace, start)) && Used(old(script), 0)
        decreases Budget()
      {
        var reply := Post(i, i + 1, record);
        if reply.Accepted? {
          return true;
        } else if cancelled {
          return false;
        } else if reply.Invalid? {
          ok := Reject(i);
          return;
        }
      }
    }

    method Isolate(lo: nat, hi: nat) returns (ok: bool)
      requires Valid() && !Awaits(trace) && Quiet(trace) && lo == done < hi <= |feed.payloads|
      modifies this`script, this`cancelled, this`trace, this`done
      ensures Valid() && !Awaits(trace) && Quiet(trace) && Acked(trace, start) == old(Acked(trace, start))
      ensures lo <= done <= hi
      ensures if ok then done == hi else cancelled
      ensures Budget() <= old(Budget()) && Used(old(script), 2 * (hi - lo))
    {
      hide Good;
      for i := lo to hi
        invariant Valid() && !Awaits(trace) && Quiet(trace) && done == i && Budget() <= old(Budget())
        invariant Acked(trace, start) == old(Acked(trace, start)) && Used(old(script), 2 * (i - lo))
      {
        ok := DeliverIsolated(i);
        if !ok {
          return;
        }
      }
      ok := true;
    }

    method Gather(lo: nat, hi: nat) returns (body: Bytes)
      requires lo <= hi <= |feed.payloads| && forall i :: lo <= i < hi ==> feed.payloads[i].Some?
      ensures body == Body(feed.payloads[lo..hi])
    {
      body := [];
      for i := lo to hi
        invariant body == Body(feed.payloads[lo..i])
      {
        BodyExtends(feed.payloads, lo, i);
        body := body + feed.payloads[i].value;
      }
    }

    /** Deliver the records just read, from the checkpoint up to `hi`; false only once cancelled. */
    method Deliver(hi: nat) returns (ok: bool)
      requires Valid() && !Awaits(trace) && done == checkpoint < hi <= |feed.payloads|
      requires !Quiet(trace) && trace[|trace| - 1].position == checkpoint
      requires BatchOf(feed, checkpoint, trace[|trace| - 1].count) == hi - checkpoint
      modifies this`script, this`cancelled, this`trace, this`done
      ensures Valid() && !Awaits(trace) && (ok ==> Quiet(trace)) && Acked(trace, start) == old(Acked(trace, start))
      ensures checkpoint <= done <= hi
      ensures if ok then done == hi else cancelled
      ensures Budget() <= old(Budget()) && Used(old(script), if valid then 1 else 1 + 2 * (hi - checkpoint))
    {
      hide Good;
      var body := Gather(checkpoint, hi);
      while !cancelled
        invariant Valid() && !Awaits(trace) && done == checkpoint && Budget() <= old(Budget())
        invariant Quiet(trace) || trace == old(trace)
        invariant Acked(trace, start) == old(Acked(trace, start)) && Used(old(script), 0)
        decreases Budget()
      {
        var reply := Post(checkpoint, hi, body);
        if reply.Accepted? {
          return true;
        }
        if cancelled {
          return false;
        }
        if reply.Invalid? {
          if hi == checkpoint + 1 {
            ok := Reject(checkpoint);
          } else {
            ok := Isolate(checkpoint, hi);
          }
          return;
        }
      }
      ok := false;
    }

    /** Record the position reached; nothing is sent in between attempts. */
    method Checkpoint(position: nat) returns (ok: bool)
      requires Valid() && !Awaits(trace) && Quiet(trace) && position == done
      modifies this`script, this`cancelled, this`trace, this`checkpoint
      ensures Valid() && Quiet(trace)
      ensures if ok then checkpoint == position == Acked(trace, start) && !Awaits(trace) else cancelled
      ensures Budget() <= old(Budget()) && Used(old(script), if ok then 1 else 0)
    {
      hide Good;
      while true
        invariant Valid() && Quiet(trace) && position == done && Budget() <= old(Budget()) && Used(old(script), 0)
        invariant Awaits(trace) ==> trace[|trace| - 1].position == position
        decreases Budget()
      {
        var o := Next();
        ok := o.storage.Stored?;
        Acknowledged(feed, start, trace, done, position, ok);
        ReadsSentNext(feed, start, trace, Ack(position, ok));
        AckedNext(trace, Ack(position, ok), start);
        trace := trace + [Ack(position, ok)];
        if !o.storage.Failed? {
          checkpoint := position;
        }
        if ok || cancelled {
          return;
        }
      }
    }

    /**
     Five useful outcomes see any record through: read, batch, alone, set aside, checkpoint;
     three where the collector finds no event invalid.
     */
    ghost predicate Enough()
      reads this
    {
      UsefulIn(script) >= (if valid then 3 else 5) * (|feed.payloads| - checkpoint)
    }

    /** Between rounds: all that was done is checkpointed, and a read before this one returned nothing. */
    ghost predicate Rests()
      reads this
    {
      && Valid() && !Awaits(trace) && done == checkpoint == Acked(trace, start)
      && (!Quiet(trace) ==>
            trace[|trace| - 1].position == checkpoint && BatchOf(feed, checkpoint, trace[|trace| - 1].count) == 0)
    }

    method NoteRead(count: nat)
      requires Rests()
      modifies this`trace
      ensures Valid() && !Awaits(trace) && done == checkpoint == Acked(trace, start)
      ensures trace == old(trace) + [Read(checkpoint, count)]
    {
      hide Good;
      HasRead(feed, start, trace, done, checkpoint, count);
      ReadsSentNext(feed, start, trace, Read(checkpoint, count));
      AckedNext(trace, Read(checkpoint, count), start);
      trace := trace + [Read(checkpoint, count)];
    }

    /** Read, deliver and checkpoint one batch; false when the forwarder is to end. */
    method Round() returns (goesOn: bool)
      requires Rests() && !cancelled
      modifies this
      ensures Valid() && Budget() < old(Budget())
      ensures if goesOn then Rests() else cancelled || (done == checkpoint && mayStop)
      ensures old(Enough()) && goesOn ==> Enough()
      ensures old(Enough()) && calm && !goesOn ==> done == checkpoint == |feed.payloads|
    {
      hide Good, UsefulIn, Acked, ReadsSent;
      NothingUseful();
      var o := Next();
      if o.storage.Failed? {
        return true;
      }
      var room := |feed.payloads| - checkpoint;
      var limit := if room < BATCH_SIZE then room else BATCH_SIZE;
      var count := if o.count < limit then o.count else limit;
      NoteRead(o.count);
      if count == 0 {
        return !o.stops;
      }
      var hi := checkpoint + count;
      var ok := Deliver(hi);
      if !ok {
        return false;
      }
      ok := Checkpoint(hi);
      return ok;
    }

    static lemma NothingUseful()
      ensures UsefulIn([]) == 0
    {
    }

    /**
     Every run leaves a good trace: the checkpoint passes a record only after it was
     accepted or preserved, and nothing accepted is sent twice; every read is sent as one
     batch. It ends only when cancelled, or when stopped with nothing left to deliver.
     Undisturbed and with enough useful outcomes among whatever else happens, it
     delivers everything.
     */
    method Run()
      requires Valid() && trace == [] && done == checkpoint == start
      modifies this
      ensures Good(feed, start, trace, done) && checkpoint <= done && ReadsSent(feed, start, trace)
      ensures cancelled || (done == checkpoint && mayStop)
      ensures old(calm && Enough()) ==> checkpoint == done == |feed.payloads|
    {
      var goesOn := true;
      while goesOn && !cancelled
        invariant Valid() && (goesOn ==> Rests())
        invariant !goesOn ==> cancelled || (done == checkpoint && mayStop)
        invariant old(Enough()) && goesOn ==> Enough()
        invariant old(Enough()) && calm && !goesOn ==> done == checkpoint == |feed.payloads|
        decreases Budget()
      {
        goesOn := Round();
      }
    }
  }
}
