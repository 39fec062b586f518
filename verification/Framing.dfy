/**
 Newline framing of spool records: where records end in a run of bytes, what a
 reader sees from a given offset, and how a torn tail is cut back.
 */
module Framing {

  type byte = x: int | 0 <= x < 256

  type Bytes = seq<byte>

  const NEWLINE: byte := 10

  /** How much of a segment the tail repair reads at a time. */
  const TAIL_SCAN_CHUNK: nat := 64 * 1024

  datatype Option<+T> = None | Some(value: T)

  predicate NoNewline(data: Bytes) {
    forall i :: 0 <= i < |data| ==> data[i] != NEWLINE
  }

  /** `k` is the start of the run or lies just after a newline. */
  predicate Boundary(b: Bytes, k: nat) {
    k <= |b| && (k == 0 || b[k - 1] == NEWLINE)
  }

  /** `data`, newline-terminated, occupies `b` from `start`, which begins a record. */
  predicate Intact(b: Bytes, start: nat, data: Bytes) {
    && start + |data| + 1 <= |b|
    && Boundary(b, start)
    && NoNewline(data)
    && b[start..start + |data|] == data
    && b[start + |data|] == NEWLINE
  }

  /** Offset just after the first newline at or after `k`; `|b| + 1` when there is none. */
  function LineEnd(b: Bytes, k: nat): (e: nat)
    requires k <= |b|
    ensures k < e <= |b| + 1
    ensures e <= |b| ==> b[e - 1] == NEWLINE
    ensures forall i :: k <= i < e - 1 ==> b[i] != NEWLINE
    decreases |b| - k
  {
    if k == |b| then |b| + 1
    else if b[k] == NEWLINE then k + 1
    else LineEnd(b, k + 1)
  }

  /** The greatest record boundary: what tail repair must keep. */
  function LastBoundary(b: Bytes): (k: nat)
    ensures Boundary(b, k)
    ensures forall j :: k < j <= |b| ==> !Boundary(b, j)
  {
    BoundaryAtOrBelow(b, |b|)
  }

  function BoundaryAtOrBelow(b: Bytes, k: nat): (best: nat)
    requires k <= |b|
    ensures best <= k && Boundary(b, best)
    ensures forall j :: best < j <= k ==> !Boundary(b, j)
  {
    if k == 0 || b[k - 1] == NEWLINE then k else BoundaryAtOrBelow(b, k - 1)
  }

  lemma LastBoundaryIsGreatest(b: Bytes, k: nat)
    requires Boundary(b, k)
    requires forall j :: k < j <= |b| ==> !Boundary(b, j)
    ensures k == LastBoundary(b)
  {
    assert Boundary(b, LastBoundary(b));
  }

  /**
   Backward scan for the end of the last complete record, one chunk at a time;
   the result is where the segment is truncated.
   */
  method RepairTail(b: Bytes) returns (keep: nat)
    ensures keep == LastBoundary(b)
  {
    keep := 0;
    var end := |b|;
    while end > 0 && keep == 0
      invariant 0 <= end <= |b|
      invariant keep == 0 ==> forall j :: end < j <= |b| ==> !Boundary(b, j)
      invariant keep != 0 ==> Boundary(b, keep) && forall j :: keep < j <= |b| ==> !Boundary(b, j)
    {
      var start := if end > TAIL_SCAN_CHUNK then end - TAIL_SCAN_CHUNK else 0;
      var i := end;
      while i > start && b[i - 1] != NEWLINE
        invariant start <= i <= end
        invariant forall j :: i < j <= |b| ==> !Boundary(b, j)
      {
        i := i - 1;
      }
      if i > start { keep := i; }
      end := start;
    }
    LastBoundaryIsGreatest(b, keep);
  }

  /** A record found in a run of bytes, with the offset just after its newline. */
  datatype Found = Found(data: Bytes, end: nat)

  /** The complete records of `b` from offset `k` on, in order. */
  function RecordsFrom(b: Bytes, k: nat): (found: seq<Found>)
    ensures forall i :: 0 <= i < |found| ==> k < found[i].end <= |b| && NoNewline(found[i].data)
    ensures forall i :: 0 <= i < |found| ==> Boundary(b, found[i].end)
    ensures forall i, j :: 0 <= i < j < |found| ==> found[i].end < found[j].end
    decreases |b| - k
  {
    if k >= |b| then []
    else
      var e := LineEnd(b, k);
      if e > |b| then [] else [Found(b[k..e - 1], e)] + RecordsFrom(b, e)
  }

  lemma {:induction false} RecordsFromContains(b: Bytes, k: nat, start: nat, data: Bytes)
    requires Boundary(b, k)
    requires k <= start
    requires Intact(b, start, data)
    ensures Found(data, start + |data| + 1) in RecordsFrom(b, k)
    decreases start - k
  {
    var e := LineEnd(b, k);
    if k == start {
      assert e == start + |data| + 1 by {
        assert b[start + |data|] == NEWLINE;
        forall i | k <= i < start + |data| ensures b[i] != NEWLINE {
          assert b[i] == b[start..start + |data|][i - start];
        }
      }
      assert b[k..e - 1] == data;
    } else {
      assert b[start - 1] == NEWLINE;
      assert e <= start;
      RecordsFromContains(b, e, start, data);
    }
  }

  /** Every record a reader finds from a boundary really is a whole record of the run. */
  lemma {:induction false} RecordsFromIntact(b: Bytes, k: nat, i: nat)
    requires Boundary(b, k)
    requires i < |RecordsFrom(b, k)|
    ensures var f := RecordsFrom(b, k)[i];
            && k <= f.end - |f.data| - 1
            && Intact(b, f.end - |f.data| - 1, f.data)
    decreases |b| - k
  {
    var e := LineEnd(b, k);
    if i > 0 {
      RecordsFromIntact(b, e, i - 1);
    }
  }

  /** From a boundary to a boundary end, the records tile the bytes: nothing is skipped. */
  lemma {:induction false} RecordsFromTile(b: Bytes, k: nat)
    requires Boundary(b, k) && Boundary(b, |b|)
    ensures Concatenated(RecordsFrom(b, k)) == b[k..]
    decreases |b| - k
  {
    if k < |b| {
      var e := LineEnd(b, k);
      assert e <= |b| by { assert b[|b| - 1] == NEWLINE; }
      RecordsFromTile(b, e);
      assert b[k..] == b[k..e - 1] + [NEWLINE] + b[e..];
    }
  }

  function Concatenated(found: seq<Found>): Bytes {
    if found == [] then [] else found[0].data + [NEWLINE] + Concatenated(found[1..])
  }

  lemma IntactInPrefix(b: Bytes, limit: nat, start: nat, data: Bytes)
    requires Intact(b, start, data)
    requires start + |data| + 1 <= limit <= |b|
    ensures Intact(b[..limit], start, data)
  {
    assert b[..limit][start..start + |data|] == b[start..start + |data|];
  }

  lemma IntactInExtension(b: Bytes, more: Bytes, start: nat, data: Bytes)
    requires Intact(b, start, data)
    ensures Intact(b + more, start, data)
  {
    assert (b + more)[start..start + |data|] == b[start..start + |data|];
  }

  lemma AppendedIsIntact(b: Bytes, data: Bytes)
    requires Boundary(b, |b|) && NoNewline(data)
    ensures Intact(b + (data + [NEWLINE]), |b|, data)
    ensures Boundary(b + (data + [NEWLINE]), |b| + |data| + 1)
  {
    var c := b + (data + [NEWLINE]);
    assert c[|b|..|b| + |data|] == data;
  }
}
