/**
 The keyed mutex: a map of reference-counted entries, each with a one-slot
 semaphore. Entries have an identity of their own; a goroutine keeps the one it got.
 */
module KeyedMutex {
  type Key = string

  /** One per-key semaphore and the number of goroutines that reference it. */
  class Entry {
    var held: bool
    var waiters: int

    constructor ()
      ensures !held && waiters == 0
    {
      held, waiters := false, 0;
    }
  }

  class Mutex {
    var locks: map<Key, Entry>

    constructor ()
      ensures locks == map[]
    {
      locks := map[];
    }

    /** Get or make the key's entry and count the caller, in one map section. */
    method Reference(key: Key) returns (entry: Entry)
      modifies this, locks.Values
      ensures locks == old(locks)[key := entry]
      ensures key in old(locks) ==>
                entry == old(locks)[key] && entry.waiters == old(entry.waiters) + 1 && entry.held == old(entry.held)
      ensures key !in old(locks) ==> fresh(entry) && entry.waiters == 1 && !entry.held
      ensures forall k :: k in old(locks) && old(locks)[k] != entry ==> unchanged(old(locks)[k])
    {
      if key in locks {
        entry := locks[key];
        assert entry in locks.Values;
      } else {
        entry := new Entry();
        locks := locks[key := entry];
      }
      entry.waiters := entry.waiters + 1;
    }

    method ReleaseReference(key: Key, entry: Entry)
      modifies this, entry
      ensures entry.waiters == old(entry.waiters) - 1 && entry.held == old(entry.held)
      ensures locks == if entry.waiters == 0 then old(locks) - {key} else old(locks)
    {
      entry.waiters := entry.waiters - 1;
      if entry.waiters == 0 {
        locks := locks - {key};
      }
    }
  }

  // Every interleaving.

  type EntryId = nat
  type Thread = nat

  datatype Cell = Cell(held: bool, waiters: int)

  /** `Leaving` has emptied the semaphore and not yet dropped its reference. */
  datatype Stage = Waiting | Holding | Leaving

  datatype Visit = Visit(key: Key, entry: EntryId, stage: Stage)

  datatype System = System(locks: map<Key, EntryId>, cells: map<EntryId, Cell>, threads: map<Thread, Visit>)

  const EMPTY := System(map[], map[], map[])

  /** `Cancel` is a cancelled wait; an acquisition undone by cancellation is an `Unlock`. */
  datatype Step =
    | Enter(t: Thread, key: Key, newEntry: EntryId)
    | Acquire(t: Thread)
    | Cancel(t: Thread)
    | Unlock(t: Thread)
    | Drop(t: Thread)

  predicate At(s: System, t: Thread, stage: Stage) {
    t in s.threads && s.threads[t].stage == stage && s.threads[t].entry in s.cells
  }

  predicate Enabled(s: System, step: Step) {
    match step
    case Enter(t, key, e) => t !in s.threads && e !in s.cells && (key in s.locks ==> s.locks[key] in s.cells)
    case Acquire(t) => At(s, t, Waiting) && !s.cells[s.threads[t].entry].held
    case Cancel(t) => At(s, t, Waiting)
    case Unlock(t) => At(s, t, Holding)
    case Drop(t) => At(s, t, Leaving)
  }

  function Unreference(s: System, t: Thread): System
    requires t in s.threads && s.threads[t].entry in s.cells
  {
    var v := s.threads[t];
    var cell := s.cells[v.entry].(waiters := s.cells[v.entry].waiters - 1);
    System(
      if cell.waiters == 0 then s.locks - {v.key} else s.locks,
      s.cells[v.entry := cell],
      s.threads - {t})
  }

  function Apply(s: System, step: Step): System
    requires Enabled(s, step)
  {
    match step
    case Enter(t, key, newEntry) =>
      var e := if key in s.locks then s.locks[key] else newEntry;
      var cell := if key in s.locks then s.cells[e] else Cell(false, 0);
      System(s.locks[key := e], s.cells[e := cell.(waiters := cell.waiters + 1)], s.threads[t := Visit(key, e, Waiting)])
    case Acquire(t) =>
      var v := s.threads[t];
      s.(cells := s.cells[v.entry := s.cells[v.entry].(held := true)], threads := s.threads[t := v.(stage := Holding)])
    case Cancel(t) => Unreference(s, t)
    case Unlock(t) =>
      var v := s.threads[t];
      s.(cells := s.cells[v.entry := s.cells[v.entry].(held := false)], threads := s.threads[t := v.(stage := Leaving)])
    case Drop(t) => Unreference(s, t)
  }

  function Referencing(s: System, e: EntryId): set<Thread> {
    set t | t in s.threads && s.threads[t].entry == e
  }

  /** Every goroutine on a key has the entry that the map has. */
  ghost predicate Shared(s: System) {
    && (forall t :: t in s.threads ==>
          var v := s.threads[t]; v.key in s.locks && s.locks[v.key] == v.entry)
    && (forall k :: k in s.locks ==> s.locks[k] in s.cells)
    && (forall k, j :: k in s.locks && j in s.locks && k != j ==> s.locks[k] != s.locks[j])
  }

  predicate Holds(s: System, t: Thread, e: EntryId) {
    t in s.threads && s.threads[t].entry == e && s.threads[t].stage.Holding?
  }

  predicate Counted(s: System, e: EntryId) {
    e in s.cells && s.cells[e].waiters == |Referencing(s, e)| && s.cells[e].waiters > 0
  }

  /** A live entry is counted exactly, and held only when somebody holds it. */
  ghost predicate CellSound(s: System, e: EntryId) {
    Counted(s, e) && (s.cells[e].held ==> exists t :: Holds(s, t, e))
  }

  ghost predicate Exclusive(s: System) {
    && (forall t :: t in s.threads && s.threads[t].stage.Holding? ==>
          s.threads[t].entry in s.cells && s.cells[s.threads[t].entry].held)
    && (forall t, u :: t in s.threads && u in s.threads && t != u
                       && s.threads[t].stage.Holding? && s.threads[u].stage.Holding?
          ==> s.threads[t].entry != s.threads[u].entry)
  }

  ghost predicate Inv(s: System) {
    Shared(s) && Exclusive(s) && forall k :: k in s.locks ==> CellSound(s, s.locks[k])
  }

  lemma ExclusiveKept(s: System, step: Step)
    requires Shared(s) && Exclusive(s) && Enabled(s, step)
    ensures Exclusive(Apply(s, step))
  {
  }

  /** A count of one means nobody else references the entry. */
  lemma LastOut(s: System, t: Thread, u: Thread)
    requires t in s.threads && CellSound(s, s.threads[t].entry) && s.cells[s.threads[t].entry].waiters == 1
    requires u in s.threads && s.threads[u].entry == s.threads[t].entry
    ensures u == t
  {
    var refs := Referencing(s, s.threads[t].entry);
    assert t in refs && u in refs;
    assert |refs - {t}| == 0;
  }

  lemma UnreferenceShared(s: System, t: Thread)
    requires Inv(s) && t in s.threads && s.threads[t].entry in s.cells
    ensures Shared(Unreference(s, t))
  {
    var v := s.threads[t];
    assert CellSound(s, s.locks[v.key]);
    forall u | u in s.threads && u != t ensures s.threads[u].key in Unreference(s, t).locks {
      if s.threads[u].key == v.key && s.cells[v.entry].waiters == 1 {
        LastOut(s, t, u);
      }
    }
  }

  lemma SharedKept(s: System, step: Step)
    requires Inv(s) && Enabled(s, step)
    ensures Shared(Apply(s, step))
  {
    match step
    case Cancel(t) => UnreferenceShared(s, t);
    case Drop(t) => UnreferenceShared(s, t);
    case _ =>
      hide CellSound, Exclusive;
  }

  lemma EnterReferences(s: System, t: Thread, key: Key, newEntry: EntryId, e: EntryId)
    requires Shared(s) && Enabled(s, Enter(t, key, newEntry))
    ensures var s1 := Apply(s, Enter(t, key, newEntry));
            Referencing(s1, e) == Referencing(s, e) + if s1.locks[key] == e then {t} else {}
    ensures t !in Referencing(s, e)
    ensures key !in s.locks ==> Referencing(s, newEntry) == {}
  {
  }

  lemma EnterCounts(s: System, t: Thread, key: Key, newEntry: EntryId, k: Key)
    requires Shared(s) && Enabled(s, Enter(t, key, newEntry)) && (k in s.locks ==> Counted(s, s.locks[k]))
    requires k == key || k in s.locks
    ensures var s1 := Apply(s, Enter(t, key, newEntry)); Counted(s1, s1.locks[k])
  {
    hide Referencing;
    var s1 := Apply(s, Enter(t, key, newEntry));
    var e := s1.locks[k];
    EnterReferences(s, t, key, newEntry, e);
    assert k != key ==> e != s1.locks[key];
    assert Referencing(s, e) + {} == Referencing(s, e);
  }

  lemma UnreferenceCounts(s: System, t: Thread, k: Key)
    requires Shared(s) && t in s.threads && s.threads[t].entry in s.cells
    requires k in Unreference(s, t).locks && Counted(s, s.locks[k])
    ensures Counted(Unreference(s, t), Unreference(s, t).locks[k])
  {
    var s1 := Unreference(s, t);
    var e := s1.locks[k];
    if s.threads[t].entry == e {
      assert Referencing(s1, e) == Referencing(s, e) - {t};
    } else {
      assert Referencing(s1, e) == Referencing(s, e);
    }
  }

  lemma StageCounts(s: System, step: Step, e: EntryId)
    requires Enabled(s, step) && (step.Acquire? || step.Unlock?) && Counted(s, e)
    ensures Counted(Apply(s, step), e)
  {
    assert Referencing(Apply(s, step), e) == Referencing(s, e);
  }

  /** The holder behind a held semaphore: the one before, or the one that just took it. */
  lemma HeldKept(s: System, step: Step, e: EntryId)
    requires Shared(s) && Exclusive(s) && Enabled(s, step)
    requires e in s.cells ==> (s.cells[e].held ==> exists t :: Holds(s, t, e))
    requires e in Apply(s, step).cells && Apply(s, step).cells[e].held
    ensures exists t :: Holds(Apply(s, step), t, e)
  {
    var s1 := Apply(s, step);
    if step.Acquire? && s.threads[step.t].entry == e {
      assert Holds(s1, step.t, e);
    } else {
      assert s.cells[e].held;
      var h :| Holds(s, h, e);
      assert Holds(s1, h, e);
    }
  }

  lemma CountsKept(s: System, step: Step, k: Key)
    requires Shared(s) && Enabled(s, step) && k in Apply(s, step).locks
    requires k in s.locks ==> Counted(s, s.locks[k])
    ensures Counted(Apply(s, step), Apply(s, step).locks[k])
  {
    hide Counted, Shared;
    match step
    case Enter(t, key, newEntry) => EnterCounts(s, t, key, newEntry, k);
    case Acquire(_) => StageCounts(s, step, s.locks[k]);
    case Cancel(t) => UnreferenceCounts(s, t, k);
    case Unlock(_) => StageCounts(s, step, s.locks[k]);
    case Drop(t) => UnreferenceCounts(s, t, k);
  }

  lemma CellKept(s: System, step: Step, k: Key)
    requires Inv(s) && Enabled(s, step) && k in Apply(s, step).locks
    ensures CellSound(Apply(s, step), Apply(s, step).locks[k])
  {
    hide Referencing, Shared, Exclusive, Holds;
    var s1 := Apply(s, step);
    assert k in s.locks ==> CellSound(s, s.locks[k]);
    CountsKept(s, step, k);
    if s1.cells[s1.locks[k]].held {
      HeldKept(s, step, s1.locks[k]);
    }
  }

  lemma StepKeeps(s: System, step: Step)
    requires Inv(s) && Enabled(s, step)
    ensures Inv(Apply(s, step))
  {
    hide Shared, Exclusive, CellSound, Enabled, Apply;
    SharedKept(s, step);
    ExclusiveKept(s, step);
    forall k | k in Apply(s, step).locks ensures CellSound(Apply(s, step), Apply(s, step).locks[k]) {
      CellKept(s, step, k);
    }
  }

  ghost predicate Runs(s: System, steps: seq<Step>)
    decreases |steps|
  {
    steps == [] || (Enabled(s, steps[0]) && Runs(Apply(s, steps[0]), steps[1..]))
  }

  ghost function Exec(s: System, steps: seq<Step>): System
    requires Runs(s, steps)
    decreases |steps|
  {
    if steps == [] then s else Exec(Apply(s, steps[0]), steps[1..])
  }

  lemma {:induction false} RunKeeps(s: System, steps: seq<Step>)
    requires Inv(s) && Runs(s, steps)
    ensures Inv(Exec(s, steps))
    decreases |steps|
  {
    hide Inv, Enabled, Apply;
    if steps != [] {
      StepKeeps(s, steps[0]);
      RunKeeps(Apply(s, steps[0]), steps[1..]);
    }
  }

  function OnKey(s: System, key: Key): set<Thread> {
    set t | t in s.threads && s.threads[t].key == key
  }

  /**
   In every interleaving: at most one holder per key; the goroutines on a key share one
   entry whose count is their number; the map has a key exactly while one is there.
   */
  lemma OneHolderPerKey(steps: seq<Step>, key: Key)
    requires Runs(EMPTY, steps)
    ensures var s := Exec(EMPTY, steps);
            && (forall t, u :: t in OnKey(s, key) && u in OnKey(s, key) ==>
                  s.threads[t].entry == s.threads[u].entry
                  && (s.threads[t].stage.Holding? && s.threads[u].stage.Holding? ==> t == u))
            && (key in s.locks <==> OnKey(s, key) != {})
            && (key in s.locks ==> s.locks[key] in s.cells && s.cells[s.locks[key]].waiters == |OnKey(s, key)|)
  {
    RunKeeps(EMPTY, steps);
    var s := Exec(EMPTY, steps);
    if key in s.locks {
      assert CellSound(s, s.locks[key]);
      assert OnKey(s, key) == Referencing(s, s.locks[key]);
    }
  }

  /** Nobody waits for a key in vain: it is held, or any waiter can take it now. */
  lemma WaitersCanAcquire(steps: seq<Step>, t: Thread)
    requires Runs(EMPTY, steps)
    requires var s := Exec(EMPTY, steps); t in s.threads && s.threads[t].stage.Waiting?
    ensures var s := Exec(EMPTY, steps);
            || Enabled(s, Acquire(t))
            || exists h :: h in s.threads && s.threads[h].key == s.threads[t].key && s.threads[h].stage.Holding?
  {
    RunKeeps(EMPTY, steps);
    var s := Exec(EMPTY, steps);
    assert CellSound(s, s.locks[s.threads[t].key]);
  }

  /** An Enabled step of a goroutine on a reachable key never finds its entry gone. */
  lemma EntriesOutliveVisits(steps: seq<Step>, t: Thread)
    requires Runs(EMPTY, steps) && t in Exec(EMPTY, steps).threads
    ensures var s := Exec(EMPTY, steps); At(s, t, s.threads[t].stage)
  {
    RunKeeps(EMPTY, steps);
  }
}
