/**
 What the forwarder reads: the committed records from a position on, across
 segment ends and deleted segments, and the batch limits.
 */
module SpoolReading {
  import opened Framing
  import opened SpoolModel

  /** Segment files hold at least the bytes the list says; the commit point is in the last segment. */
  predicate Readable(st: Store) {
    && (forall i :: 0 <= i < |st.mem.segments| ==>
          st.mem.segments[i].id in st.disk.files && st.mem.segments[i].size <= |st.disk.files[st.mem.segments[i].id].bytes|)
    && (forall i, j :: 0 <= i < j < |st.mem.segments| ==> st.mem.segments[i].id < st.mem.segments[j].id)
    && (forall i :: 0 <= i < |st.mem.segments| && st.mem.segments[i].id == st.mem.committed.segment ==>
          i == |st.mem.segments| - 1 && st.mem.committed.offset <= st.mem.segments[i].size)
    && (st.mem.segments != [] ==> Last(st.mem).id <= st.mem.committed.segment)
  }

  /** How far segment `i` may be read. */
  function Limit(st: Store, i: nat): nat
    requires i < |st.mem.segments|
  {
    if st.mem.segments[i].id == st.mem.committed.segment then st.mem.committed.offset else st.mem.segments[i].size
  }

  function Contents(st: Store, i: nat): Bytes
    requires Readable(st) && i < |st.mem.segments|
  {
    st.disk.files[st.mem.segments[i].id].bytes[..Limit(st, i)]
  }

  function Placed(segment: nat, found: seq<Found>): (records: seq<SpoolRecord>)
    ensures |records| == |found|
    ensures forall i :: 0 <= i < |found| ==> records[i] == SpoolRecord(found[i].data, Position(segment, found[i].end))
  {
    seq(|found|, i requires 0 <= i < |found| => SpoolRecord(found[i].data, Position(segment, found[i].end)))
  }

  /** The committed records of segment `i` from `offset`, then of all later segments. */
  function PendingFrom(st: Store, i: nat, offset: nat): seq<SpoolRecord>
    requires Readable(st) && i <= |st.mem.segments|
    decreases |st.mem.segments| - i
  {
    if i == |st.mem.segments| then []
    else Placed(st.mem.segments[i].id, RecordsFrom(Contents(st, i), offset)) + PendingFrom(st, i + 1, 0)
  }

  /** Index of the first segment numbered `id` or later. */
  function IndexOf(segments: seq<Segment>, id: nat): (i: nat)
    ensures i <= |segments|
    ensures forall j :: 0 <= j < i ==> segments[j].id < id
    ensures i < |segments| ==> segments[i].id >= id
  {
    if segments == [] || segments[0].id >= id then 0 else 1 + IndexOf(segments[1..], id)
  }

  function StartIn(st: Store, i: nat, from: Position): nat {
    if i < |st.mem.segments| && st.mem.segments[i].id == from.segment then from.offset else 0
  }

  /** Every committed record after `from`, in order: what delivery still has to do. */
  function Pending(st: Store, from: Position): seq<SpoolRecord>
    requires Readable(st)
  {
    var i := IndexOf(st.mem.segments, from.segment);
    PendingFrom(st, i, StartIn(st, i, from))
  }

  /** The prefix a reader with these limits takes: it stops once either limit is reached. */
  function Take(records: seq<SpoolRecord>, maxRecords: int, maxBytes: int): seq<SpoolRecord> {
    if records == [] || maxRecords <= 0 || maxBytes <= 0 then []
    else [records[0]] + Take(records[1..], maxRecords - 1, maxBytes - |records[0].data| - 1)
  }

  function BytesOf(records: seq<SpoolRecord>): nat {
    if records == [] then 0 else |records[0].data| + 1 + BytesOf(records[1..])
  }

  /**
   The batch is the longest prefix within the limits: at most `maxRecords`, only
   the last record may pass `maxBytes`, and it ends early only at a limit.
   */
  lemma {:induction false} TakeIsLongest(records: seq<SpoolRecord>, maxRecords: int, maxBytes: int)
    ensures var t := Take(records, maxRecords, maxBytes);
            && t <= records
            && (maxRecords >= 0 ==> |t| <= maxRecords)
            && (t != [] ==> BytesOf(t[..|t| - 1]) < maxBytes)
            && (|t| < |records| ==> |t| >= maxRecords || BytesOf(t) >= maxBytes)
  {
    if records != [] && maxRecords > 0 && maxBytes > 0 {
      var size := |records[0].data| + 1;
      TakeIsLongest(records[1..], maxRecords - 1, maxBytes - size);
      var rest := Take(records[1..], maxRecords - 1, maxBytes - size);
      var t := Take(records, maxRecords, maxBytes);
      assert t == [records[0]] + rest;
      assert t[1..] == rest;
      if rest != [] {
        assert t[..|t| - 1] == [records[0]] + rest[..|rest| - 1];
        assert t[..|t| - 1][1..] == rest[..|rest| - 1];
      }
    }
  }

  /** With room for one record, a batch is empty only when nothing committed follows. */
  lemma EmptyOnlyWhenCaughtUp(st: Store, from: Position, maxRecords: int, maxBytes: int)
    requires Readable(st) && maxRecords > 0 && maxBytes > 0
    ensures Take(Pending(st, from), maxRecords, maxBytes) == [] <==> Pending(st, from) == []
  {
  }

  lemma TakeOne(r: SpoolRecord, rest: seq<SpoolRecord>, maxRecords: int, maxBytes: int)
    ensures maxRecords > 0 && maxBytes > 0 ==>
              Take([r] + rest, maxRecords, maxBytes) == [r] + Take(rest, maxRecords - 1, maxBytes - |r.data| - 1)
    ensures maxRecords <= 0 || maxBytes <= 0 ==> Take([r] + rest, maxRecords, maxBytes) == []
    ensures BytesOf([r] + rest) == |r.data| + 1 + BytesOf(rest)
  {
    assert ([r] + rest)[1..] == rest;
  }

  lemma TakeNothing(records: seq<SpoolRecord>, maxRecords: int, maxBytes: int)
    requires maxRecords <= 0 || maxBytes <= 0
    ensures Take(records, maxRecords, maxBytes) == []
  {
  }

  /** A reader stopped inside `a` does not notice what follows it. */
  lemma {:induction false} TakeWithin(a: seq<SpoolRecord>, b: seq<SpoolRecord>, maxRecords: int, maxBytes: int)
    requires |Take(a, maxRecords, maxBytes)| < |a|
    ensures Take(a + b, maxRecords, maxBytes) == Take(a, maxRecords, maxBytes)
    decreases |a|
  {
    assert a == [a[0]] + a[1..] && a + b == [a[0]] + (a[1..] + b);
    TakeOne(a[0], a[1..], maxRecords, maxBytes);
    TakeOne(a[0], a[1..] + b, maxRecords, maxBytes);
    if maxRecords > 0 && maxBytes > 0 {
      TakeWithin(a[1..], b, maxRecords - 1, maxBytes - |a[0].data| - 1);
    }
  }

  /** A reader that takes all of `a` goes on into `b` with what is left of its limits. */
  lemma {:induction false} TakeAcross(a: seq<SpoolRecord>, b: seq<SpoolRecord>, maxRecords: int, maxBytes: int)
    requires |Take(a, maxRecords, maxBytes)| == |a|
    ensures Take(a + b, maxRecords, maxBytes) == a + Take(b, maxRecords - |a|, maxBytes - BytesOf(a))
    decreases |a|
  {
    if a == [] {
      assert a + b == b;
    } else {
      var more := Take(b, maxRecords - |a|, maxBytes - BytesOf(a));
      assert a == [a[0]] + a[1..] && a + b == [a[0]] + (a[1..] + b);
      TakeOne(a[0], a[1..], maxRecords, maxBytes);
      TakeOne(a[0], a[1..] + b, maxRecords, maxBytes);
      TakeAcross(a[1..], b, maxRecords - 1, maxBytes - |a[0].data| - 1);
      assert [a[0]] + (a[1..] + more) == a + more;
    }
  }

  // Order and completeness of what is pending.

  predicate EndsIncrease(records: seq<SpoolRecord>) {
    forall i, j :: 0 <= i < j < |records| ==> records[i].end.Before(records[j].end)
  }

  predicate AllAtOrAfter(records: seq<SpoolRecord>, id: nat) {
    forall i :: 0 <= i < |records| ==> records[i].end.segment >= id
  }

  lemma {:induction false} PendingFromIncreases(st: Store, i: nat, offset: nat)
    requires Readable(st) && i <= |st.mem.segments|
    ensures EndsIncrease(PendingFrom(st, i, offset))
    ensures i < |st.mem.segments| ==> AllAtOrAfter(PendingFrom(st, i, offset), st.mem.segments[i].id)
    decreases |st.mem.segments| - i
  {
    if i < |st.mem.segments| {
      PendingFromIncreases(st, i + 1, 0);
    }
  }

  lemma PendingIncreases(st: Store, from: Position)
    requires Readable(st)
    ensures EndsIncrease(Pending(st, from))
  {
    var i := IndexOf(st.mem.segments, from.segment);
    PendingFromIncreases(st, i, StartIn(st, i, from));
  }

  lemma PlacedContains(segment: nat, b: Bytes, offset: nat, start: nat, data: Bytes)
    requires Boundary(b, offset) && offset <= start && Intact(b, start, data)
    ensures SpoolRecord(data, Position(segment, start + |data| + 1)) in Placed(segment, RecordsFrom(b, offset))
  {
    RecordsFromContains(b, offset, start, data);
    var found := RecordsFrom(b, offset);
    var k :| 0 <= k < |found| && found[k] == Found(data, start + |data| + 1);
    assert Placed(segment, found)[k] == SpoolRecord(data, Position(segment, start + |data| + 1));
  }

  lemma {:induction false} PendingFromContains(st: Store, i: nat, offset: nat, j: nat, start: nat, data: Bytes)
    requires Readable(st) && i <= j < |st.mem.segments|
    requires i == j ==> Boundary(Contents(st, j), offset) && offset <= start
    requires Intact(Contents(st, j), start, data)
    ensures SpoolRecord(data, Position(st.mem.segments[j].id, start + |data| + 1)) in PendingFrom(st, i, offset)
    decreases j - i
  {
    hide Readable, Intact, Contents;
    if i == j {
      PlacedContains(st.mem.segments[j].id, Contents(st, j), offset, start, data);
    } else {
      PendingFromContains(st, i + 1, 0, j, start, data);
    }
  }

  /** A whole committed record at or after a boundary `from` is pending from it. */
  lemma PendingContains(st: Store, from: Position, j: nat, start: nat, data: Bytes)
    requires Readable(st) && j < |st.mem.segments|
    requires Intact(Contents(st, j), start, data)
    requires from.UpTo(Position(st.mem.segments[j].id, start))
    requires from.segment == st.mem.segments[j].id ==> Boundary(Contents(st, j), from.offset)
    ensures SpoolRecord(data, Position(st.mem.segments[j].id, start + |data| + 1)) in Pending(st, from)
  {
    var i := IndexOf(st.mem.segments, from.segment);
    assert i <= j;
    PendingFromContains(st, i, StartIn(st, i, from), j, start, data);
  }

  /** What is pending ends at or before the commit point. */
  lemma {:induction false} PendingFromBelow(st: Store, i: nat, offset: nat, k: nat)
    requires Readable(st) && i <= |st.mem.segments| && k < |PendingFrom(st, i, offset)|
    ensures PendingFrom(st, i, offset)[k].end.UpTo(st.mem.committed)
    decreases |st.mem.segments| - i
  {
    var here := Placed(st.mem.segments[i].id, RecordsFrom(Contents(st, i), offset));
    if k >= |here| {
      PendingFromBelow(st, i + 1, 0, k - |here|);
    } else {
      assert i < |st.mem.segments| - 1 ==> st.mem.segments[i].id < Last(st.mem).id;
    }
  }

  lemma PendingBelow(st: Store, from: Position, k: nat)
    requires Readable(st) && k < |Pending(st, from)|
    ensures Pending(st, from)[k].end.UpTo(st.mem.committed)
  {
    var i := IndexOf(st.mem.segments, from.segment);
    PendingFromBelow(st, i, StartIn(st, i, from), k);
  }

  // A reader does not see what is fsynced.

  lemma ReadableTrust(st: Store, a: map<nat, nat>)
    ensures Readable(TrustStore(st, a)) <==> Readable(st)
  {
    assert forall id :: id in st.disk.files <==> id in Trust(st.disk, a).files;
    assert forall id :: id in st.disk.files ==> Trust(st.disk, a).files[id].bytes == st.disk.files[id].bytes;
  }

  lemma ContentsTrust(st: Store, a: map<nat, nat>, i: nat)
    requires Readable(st) && Readable(TrustStore(st, a)) && i < |st.mem.segments|
    ensures Contents(TrustStore(st, a), i) == Contents(st, i)
  {
  }

  lemma {:induction false} PendingFromTrust(st: Store, a: map<nat, nat>, i: nat, offset: nat)
    requires Readable(st) && Readable(TrustStore(st, a)) && i <= |st.mem.segments|
    ensures PendingFrom(TrustStore(st, a), i, offset) == PendingFrom(st, i, offset)
    decreases |st.mem.segments| - i
  {
    hide Readable, Contents, Trust;
    if i < |st.mem.segments| {
      ContentsTrust(st, a, i);
      PendingFromTrust(st, a, i + 1, 0);
    }
  }

  lemma PendingTrust(st: Store, a: map<nat, nat>, from: Position)
    requires Readable(st) && Readable(TrustStore(st, a))
    ensures Pending(TrustStore(st, a), from) == Pending(st, from)
    ensures WholeLimits(TrustStore(st, a)) <==> WholeLimits(st)
  {
    var i := IndexOf(st.mem.segments, from.segment);
    PendingFromTrust(st, a, i, StartIn(st, i, from));
    forall j | 0 <= j < |st.mem.segments| ensures Contents(TrustStore(st, a), j) == Contents(st, j) {
      ContentsTrust(st, a, j);
    }
  }

  // Steps of a reader.

  /** Every readable run of bytes ends with a whole record. */
  predicate WholeLimits(st: Store)
    requires Readable(st)
  {
    forall i :: 0 <= i < |st.mem.segments| ==> Boundary(Contents(st, i), |Contents(st, i)|)
  }

  lemma IndexOfAt(segments: seq<Segment>, i: nat)
    requires forall j, k :: 0 <= j < k < |segments| ==> segments[j].id < segments[k].id
    requires i < |segments|
    ensures IndexOf(segments, segments[i].id) == i
  {
  }

  lemma {:induction false} LastFoundEndsRun(b: Bytes, k: nat)
    requires Boundary(b, |b|) && k < |b|
    ensures var found := RecordsFrom(b, k); found != [] && found[|found| - 1].end == |b|
    decreases |b| - k
  {
    var e := LineEnd(b, k);
    assert e <= |b| by { assert b[|b| - 1] == NEWLINE; }
    if e < |b| {
      LastFoundEndsRun(b, e);
    } else {
      assert RecordsFrom(b, e) == [];
    }
  }

  /** Nothing is pending at or past the commit point, or past the last listed segment. */
  lemma CaughtUp(st: Store, from: Position)
    requires Readable(st)
    requires !from.Before(st.mem.committed) || IndexOf(st.mem.segments, from.segment) == |st.mem.segments|
    ensures Pending(st, from) == []
  {
    var i := IndexOf(st.mem.segments, from.segment);
    if i < |st.mem.segments| {
      assert i == |st.mem.segments| - 1;
      assert PendingFrom(st, i + 1, 0) == [];
    }
  }

  lemma PendingAt(st: Store, i: nat)
    requires Readable(st) && i < |st.mem.segments|
    ensures Pending(st, Position(st.mem.segments[i].id, 0)) == PendingFrom(st, i, 0)
  {
    IndexOfAt(st.mem.segments, i);
  }

  lemma HereEmpty(st: Store, i: nat, offset: nat)
    requires Readable(st) && i < |st.mem.segments| && offset >= Limit(st, i)
    ensures HereFrom(st, i, offset) == []
  {
  }

  /** A position in a deleted segment reads on from the next one still listed. */
  lemma SkipDeleted(st: Store, from: Position, i: nat)
    requires Readable(st) && i < |st.mem.segments| && i == IndexOf(st.mem.segments, from.segment)
    requires st.mem.segments[i].id > from.segment
    ensures Pending(st, from) == Pending(st, Position(st.mem.segments[i].id, 0))
  {
    hide PendingFrom, Readable;
    PendingAt(st, i);
  }

  /** A segment read to its limit leaves what is pending from the next one. */
  lemma SkipDone(st: Store, from: Position, i: nat)
    requires Readable(st) && i < |st.mem.segments| && st.mem.segments[i].id == from.segment
    requires from.offset >= Limit(st, i)
    ensures Pending(st, from) ==
            if i + 1 < |st.mem.segments| then Pending(st, Position(st.mem.segments[i + 1].id, 0)) else []
  {
    hide Readable, Pending, HereFrom;
    SplitHere(st, from, i);
    HereEmpty(st, i, from.offset);
    if i + 1 < |st.mem.segments| {
      PendingAt(st, i + 1);
    }
  }

  function HereFrom(st: Store, i: nat, offset: nat): seq<SpoolRecord>
    requires Readable(st) && i < |st.mem.segments|
  {
    Placed(st.mem.segments[i].id, RecordsFrom(Contents(st, i), offset))
  }

  lemma SplitHere(st: Store, from: Position, i: nat)
    requires Readable(st) && i < |st.mem.segments| && st.mem.segments[i].id == from.segment
    ensures Pending(st, from) == HereFrom(st, i, from.offset) + PendingFrom(st, i + 1, 0)
  {
    IndexOfAt(st.mem.segments, i);
  }

  lemma HereDone(st: Store, i: nat, offset: nat)
    requires Readable(st) && i < |st.mem.segments| && Boundary(Contents(st, i), |Contents(st, i)|)
    requires offset < Limit(st, i)
    ensures var here := HereFrom(st, i, offset);
            && here != []
            && here[|here| - 1].end.segment == st.mem.segments[i].id
            && offset < here[|here| - 1].end.offset <= Limit(st, i)
            && Pending(st, here[|here| - 1].end) == PendingFrom(st, i + 1, 0)
  {
    var here := HereFrom(st, i, offset);
    LastFoundEndsRun(Contents(st, i), offset);
    assert here[|here| - 1].end == Position(st.mem.segments[i].id, Limit(st, i));
    hide Readable, Pending, HereFrom, Contents;
    SplitHere(st, here[|here| - 1].end, i);
    HereEmpty(st, i, Limit(st, i));
  }

  /** Reading one segment within the limits advances the whole batch accordingly. */
  lemma ReadStep(st: Store, from: Position, i: nat, maxRecords: int, maxBytes: int)
    requires Readable(st) && i < |st.mem.segments| && st.mem.segments[i].id == from.segment
    requires Boundary(Contents(st, i), |Contents(st, i)|) && from.offset < Limit(st, i)
    requires maxRecords > 0 && maxBytes > 0
    ensures var t := Take(HereFrom(st, i, from.offset), maxRecords, maxBytes);
            && t != []
            && t[|t| - 1].end.segment == from.segment
            && from.offset < t[|t| - 1].end.offset <= Limit(st, i)
            && Take(Pending(st, from), maxRecords, maxBytes) ==
               t + Take(Pending(st, t[|t| - 1].end), maxRecords - |t|, maxBytes - BytesOf(t))
  {
    hide Take, Pending, PendingFrom, Contents, Boundary, HereFrom, Readable;
    var here := HereFrom(st, i, from.offset);
    HereDone(st, i, from.offset);
    SplitHere(st, from, i);
    TakeSomething(here, maxRecords, maxBytes);
    HereEnds(st, i, from.offset, |Take(here, maxRecords, maxBytes)| - 1);
    TakeInOrder(here, PendingFrom(st, i + 1, 0), Pending(st, Take(here, maxRecords, maxBytes)[|Take(here, maxRecords, maxBytes)| - 1].end),
                maxRecords, maxBytes);
  }

  lemma TakeSomething(here: seq<SpoolRecord>, maxRecords: int, maxBytes: int)
    requires here != [] && maxRecords > 0 && maxBytes > 0
    ensures var t := Take(here, maxRecords, maxBytes); t != [] && t <= here && t[|t| - 1] == here[|t| - 1]
  {
    TakeIsLongest(here, maxRecords, maxBytes);
  }

  /** What follows a batch taken from `here` is `rest` if it took all of `here`, and is not reached otherwise. */
  lemma TakeInOrder(here: seq<SpoolRecord>, rest: seq<SpoolRecord>, following: seq<SpoolRecord>, maxRecords: int, maxBytes: int)
    requires |Take(here, maxRecords, maxBytes)| == |here| ==> following == rest
    ensures var t := Take(here, maxRecords, maxBytes);
            Take(here + rest, maxRecords, maxBytes) == t + Take(following, maxRecords - |t|, maxBytes - BytesOf(t))
  {
    hide Take, BytesOf;
    var t := Take(here, maxRecords, maxBytes);
    TakeIsLongest(here, maxRecords, maxBytes);
    if |t| == |here| {
      assert t == here;
      TakeAcross(here, rest, maxRecords, maxBytes);
    } else {
      TakeWithin(here, rest, maxRecords, maxBytes);
      TakeNothing(following, maxRecords - |t|, maxBytes - BytesOf(t));
    }
  }

  lemma HereEnds(st: Store, i: nat, offset: nat, k: nat)
    requires Readable(st) && i < |st.mem.segments| && k < |HereFrom(st, i, offset)|
    ensures HereFrom(st, i, offset)[k].end.segment == st.mem.segments[i].id
    ensures offset < HereFrom(st, i, offset)[k].end.offset <= Limit(st, i)
  {
  }

  // One turn of a reader.

  datatype Turn = Done | Failed | Moved(position: Position, read: seq<SpoolRecord>, taken: nat)

  /** Stop, skip to the next segment, or read on in the one at `position`, as the store is at that moment. */
  function NextTurn(st: Store, position: Position, maxRecords: int, maxBytes: int): Turn
    requires Readable(st)
  {
    var i := IndexOf(st.mem.segments, position.segment);
    if !position.Before(st.mem.committed) || i == |st.mem.segments| then Done
    else if st.mem.segments[i].id > position.segment then Moved(Position(st.mem.segments[i].id, 0), [], 0)
    else if position.offset >= Limit(st, i) then
      if i + 1 < |st.mem.segments| then Moved(Position(st.mem.segments[i + 1].id, 0), [], 0) else Done
    else
      var read := Take(HereFrom(st, i, position.offset), maxRecords, maxBytes);
      if read == [] then Done else Moved(read[|read| - 1].end, read, BytesOf(read))
  }

  lemma SkipIs(st: Store, position: Position, maxRecords: int, maxBytes: int)
    requires Readable(st)
    requires var turn := NextTurn(st, position, maxRecords, maxBytes); turn.Moved? && turn.read == []
    ensures var turn := NextTurn(st, position, maxRecords, maxBytes);
            var i := IndexOf(st.mem.segments, position.segment);
            && turn.taken == 0 && i < |st.mem.segments| && position.segment < turn.position.segment
            && (st.mem.segments[i].id > position.segment ==> turn.position == Position(st.mem.segments[i].id, 0))
            && (st.mem.segments[i].id == position.segment ==>
                  && position.offset >= Limit(st, i) && i + 1 < |st.mem.segments|
                  && turn.position == Position(st.mem.segments[i + 1].id, 0))
  {
    hide Take, HereFrom, Limit;
  }

  /** What a turn does to what is still to be read. */
  lemma TurnAdvances(st: Store, position: Position, maxRecords: int, maxBytes: int)
    requires Readable(st) && WholeLimits(st) && maxRecords > 0 && maxBytes > 0
    ensures var turn := NextTurn(st, position, maxRecords, maxBytes);
            && !turn.Failed?
            && (turn.Done? ==> Pending(st, position) == [])
            && (turn.Moved? && turn.read == [] ==> turn.taken == 0 && Pending(st, position) == Pending(st, turn.position))
            && (turn.Moved? && turn.read != [] ==>
                  && turn.position == turn.read[|turn.read| - 1].end
                  && turn.position.segment == position.segment && position.offset < turn.position.offset
                  && Take(Pending(st, position), maxRecords, maxBytes) ==
                     turn.read + Take(Pending(st, turn.position), maxRecords - |turn.read|, maxBytes - turn.taken))
  {
    hide Take, Pending, Readable, WholeLimits, Contents, Boundary, Limit, HereFrom, BytesOf;
    var i := IndexOf(st.mem.segments, position.segment);
    if !position.Before(st.mem.committed) || i == |st.mem.segments| {
      CaughtUp(st, position);
    } else if st.mem.segments[i].id > position.segment {
      SkipDeleted(st, position, i);
    } else if position.offset >= Limit(st, i) {
      SkipDone(st, position, i);
    } else {
      WholeAt(st, i);
      ReadStep(st, position, i, maxRecords, maxBytes);
    }
  }

  lemma WholeAt(st: Store, i: nat)
    requires Readable(st) && WholeLimits(st) && i < |st.mem.segments|
    ensures Boundary(Contents(st, i), |Contents(st, i)|)
  {
  }
}
