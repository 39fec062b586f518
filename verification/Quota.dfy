/**
 The per-user VM limit: a scan of live domains, a decision that adds the creations
 in flight, and the release of a reservation. The owner's lock is held from scan to
 decision and during release; domains come and go meanwhile.
 */
module Quota {
  import opened Framing

  type Owner = nat

  /** A creation and the domain it makes share one identity. */
  type Vm = nat

  function InFlight(table: map<Owner, nat>, o: Owner): nat {
    if o in table then table[o] else 0
  }

  function Reserved(table: map<Owner, nat>, o: Owner): map<Owner, nat> {
    table[o := InFlight(table, o) + 1]
  }

  function Released(table: map<Owner, nat>, o: Owner): map<Owner, nat> {
    if InFlight(table, o) <= 1 then table - {o} else table[o := InFlight(table, o) - 1]
  }

  class Reservations {
    var inflight: map<Owner, nat>

    constructor ()
      ensures inflight == map[]
    {
      inflight := map[];
    }

    /** `count` is None when the scan failed; a limit of zero or less admits everything. */
    method Reserve(limit: int, owner: Owner, count: Option<nat>) returns (ok: bool)
      modifies this
      ensures limit <= 0 ==> ok && inflight == old(inflight)
      ensures limit > 0 ==> ok == (count.Some? && count.value + InFlight(old(inflight), owner) < limit)
      ensures limit > 0 ==> inflight == if ok then Reserved(old(inflight), owner) else old(inflight)
    {
      if limit <= 0 {
        return true;
      }
      if count.None? {
        return false;
      }
      var have := count.value + if owner in inflight then inflight[owner] else 0;
      if have >= limit {
        return false;
      }
      inflight := inflight[owner := (if owner in inflight then inflight[owner] else 0) + 1];
      ok := true;
    }

    method Release(owner: Owner)
      modifies this
      ensures inflight == Released(old(inflight), owner)
    {
      if (if owner in inflight then inflight[owner] else 0) <= 1 {
        inflight := inflight - {owner};
        return;
      }
      inflight := inflight[owner := inflight[owner] - 1];
    }

    /** Counts the domains of one owner; an unreadable owner fails the count. */
    method CountOwned(domains: seq<Option<Option<Owner>>>, owner: Owner) returns (count: Option<nat>)
      ensures count.None? <==> exists i :: 0 <= i < |domains| && domains[i].None?
      ensures count.Some? ==> count.value == |set i | 0 <= i < |domains| && domains[i] == Some(Some(owner))|
    {
      var n := 0;
      ghost var seen: set<int> := {};
      for i := 0 to |domains|
        invariant forall k :: 0 <= k < i ==> domains[k].Some?
        invariant seen == set k | 0 <= k < i && domains[k] == Some(Some(owner))
        invariant n == |seen|
      {
        if domains[i].None? {
          return None;
        }
        if domains[i].value == Some(owner) {
          n := n + 1;
          seen := seen + {i};
        }
      }
      count := Some(n);
    }
  }

  // Interleavings.

  /**
   `domains` are visible to a scan; `creating` hold a reservation; `scans[o]` is the
   count of an admission that holds o's lock. It lists the domains first and then
   asks for their owners one by one.
   */
  datatype System = System(
    limit: int,
    domains: map<Vm, Owner>,
    creating: map<Vm, Owner>,
    table: map<Owner, nat>,
    scans: map<Owner, Tally>)

  /** Domains listed but not yet asked about, and those found to be the owner's. */
  datatype Tally = Tally(todo: set<Vm>, count: nat)

  function Start(limit: int, domains: map<Vm, Owner>): System {
    System(limit, domains, map[], map[], map[])
  }

  function Mine(m: map<Vm, Owner>, o: Owner): set<Vm> {
    set x | x in m && m[x] == o
  }

  datatype Step =
    | List(o: Owner)
    | Ask(o: Owner, x: Vm)
    | ScanFails(o: Owner)
    | Decide(o: Owner, x: Vm)
    | Define(x: Vm)
    | Undefine(x: Vm)
    | Release(x: Vm)

  predicate Enabled(s: System, step: Step) {
    match step
    case List(o) => o !in s.scans
    case Ask(o, x) => o in s.scans && x in s.scans[o].todo && x in s.domains
    case ScanFails(o) => o in s.scans
    case Decide(o, x) => o in s.scans && s.scans[o].todo == {} && x !in s.domains && x !in s.creating
    case Define(x) => x in s.creating && x !in s.domains
    case Undefine(x) => x in s.domains
    case Release(x) => x in s.creating && s.creating[x] !in s.scans
  }

  function Apply(s: System, step: Step): System
    requires Enabled(s, step)
  {
    match step
    case List(o) => s.(scans := s.scans[o := Tally(s.domains.Keys, 0)])
    case Ask(o, x) =>
      var found := if s.domains[x] == o then 1 else 0;
      s.(scans := s.scans[o := Tally(s.scans[o].todo - {x}, s.scans[o].count + found)])
    case ScanFails(o) => s.(scans := s.scans - {o})
    case Decide(o, x) =>
      var s1 := s.(scans := s.scans - {o});
      if s.scans[o].count + InFlight(s.table, o) >= s.limit then s1
      else s1.(creating := s.creating[x := o], table := Reserved(s.table, o))
    case Define(x) => s.(domains := s.domains[x := s.creating[x]])
    case Undefine(x) => s.(domains := s.domains - {x})
    case Release(x) => s.(creating := s.creating - {x}, table := Released(s.table, s.creating[x]))
  }

  /** The owner's domains and creations in flight, each once. */
  function Held(s: System, o: Owner): set<Vm> {
    Mine(s.domains, o) + Mine(s.creating, o)
  }

  ghost predicate Sound(s: System, o: Owner, bound: int) {
    && InFlight(s.table, o) == |Mine(s.creating, o)|
    && |Held(s, o)| <= bound
    && s.limit <= bound
    && (o in s.scans ==> |Mine(s.domains, o) - Mine(s.creating, o) - s.scans[o].todo| <= s.scans[o].count)
  }

  lemma Smaller(a: set<Vm>, b: set<Vm>)
    requires a <= b
    ensures |a| <= |b|
  {
    assert b == a + (b - a);
  }

  /** One more creation fits when the settled domains and the creations are below the limit. */
  lemma OneMoreFits(domains: set<Vm>, creating: set<Vm>, x: Vm, count: int, limit: int)
    requires |domains - creating| <= count && count + |creating| < limit
    ensures |domains + (creating + {x})| <= limit
  {
    var settled := domains - creating;
    assert domains + (creating + {x}) == settled + creating + {x};
    assert |settled + creating| <= |settled| + |creating|;
  }

  lemma DecideSets(s: System, o: Owner, x: Vm)
    requires Enabled(s, Decide(o, x)) && s.scans[o].count + InFlight(s.table, o) < s.limit
    ensures Mine(Apply(s, Decide(o, x)).creating, o) == Mine(s.creating, o) + {x} && x !in Mine(s.creating, o)
  {
  }

  lemma DecideKeeps(s: System, o: Owner, x: Vm, bound: int)
    requires Sound(s, o, bound) && Enabled(s, Decide(o, x)) && s.scans[o].count + InFlight(s.table, o) < s.limit
    ensures Sound(Apply(s, Decide(o, x)), o, bound)
  {
    hide Mine;
    assert Mine(s.domains, o) - Mine(s.creating, o) - {} == Mine(s.domains, o) - Mine(s.creating, o);
    OneMoreFits(Mine(s.domains, o), Mine(s.creating, o), x, s.scans[o].count, s.limit);
    DecideSets(s, o, x);
  }

  lemma ReleaseSets(s: System, o: Owner, x: Vm)
    requires Enabled(s, Release(x))
    ensures var s1 := Apply(s, Release(x));
            && Held(s1, o) <= Held(s, o)
            && Mine(s1.creating, o) == (if s.creating[x] == o then Mine(s.creating, o) - {x} else Mine(s.creating, o))
            && (s.creating[x] == o ==> x in Mine(s.creating, o))
  {
  }

  lemma ReleaseKeeps(s: System, o: Owner, x: Vm, bound: int)
    requires Sound(s, o, bound) && Enabled(s, Release(x))
    ensures Sound(Apply(s, Release(x)), o, bound)
  {
    hide Held, Mine;
    ReleaseSets(s, o, x);
    Smaller(Held(Apply(s, Release(x)), o), Held(s, o));
  }

  /** A creation that becomes visible was counted already. */
  lemma DefineSameSets(s: System, o: Owner, x: Vm)
    requires Enabled(s, Define(x))
    ensures var s1 := Apply(s, Define(x));
            && Held(s1, o) == Held(s, o)
            && Mine(s1.domains, o) - Mine(s1.creating, o) == Mine(s.domains, o) - Mine(s.creating, o)
  {
    var s1 := Apply(s, Define(x));
    forall y ensures y in Mine(s1.domains, o) <==> y in Mine(s.domains, o) || (y == x && s.creating[x] == o) {
    }
  }

  lemma DefineKeeps(s: System, o: Owner, x: Vm, bound: int)
    requires Sound(s, o, bound) && Enabled(s, Define(x))
    ensures Sound(Apply(s, Define(x)), o, bound)
  {
    hide Held, Mine;
    DefineSameSets(s, o, x);
  }

  lemma UndefineKeeps(s: System, o: Owner, x: Vm, bound: int)
    requires Sound(s, o, bound) && Enabled(s, Undefine(x))
    ensures Sound(Apply(s, Undefine(x)), o, bound)
  {
    var s1 := Apply(s, Undefine(x));
    Smaller(Held(s1, o), Held(s, o));
    if o in s.scans {
      var todo := s.scans[o].todo;
      Smaller(Mine(s1.domains, o) - Mine(s1.creating, o) - todo, Mine(s.domains, o) - Mine(s.creating, o) - todo);
    }
  }

  /** A step that touches nothing of the owner's but perhaps their lock. */
  lemma OthersKeep(s: System, s1: System, o: Owner, bound: int)
    requires Sound(s, o, bound)
    requires s1.limit == s.limit && s1.domains == s.domains && InFlight(s1.table, o) == InFlight(s.table, o)
    requires Mine(s1.creating, o) == Mine(s.creating, o)
    requires o in s1.scans ==> (o in s.scans && s1.scans[o] == s.scans[o]) || s1.scans[o] == Tally(s.domains.Keys, 0)
    ensures Sound(s1, o, bound)
  {
    assert Mine(s.domains, o) - Mine(s.creating, o) - s.domains.Keys == {};
  }

  /** Asking about one more domain counts it if it is the owner's. */
  lemma AskKeeps(s: System, o: Owner, x: Vm, bound: int)
    requires Sound(s, o, bound) && Enabled(s, Ask(o, x))
    ensures Sound(Apply(s, Ask(o, x)), o, bound)
  {
    var settled, todo := Mine(s.domains, o) - Mine(s.creating, o), s.scans[o].todo;
    if s.domains[x] == o {
      Smaller(settled - (todo - {x}), settled - todo + {x});
    } else {
      Smaller(settled - (todo - {x}), settled - todo);
    }
  }

  lemma StepKeeps(s: System, step: Step, o: Owner, bound: int)
    requires Sound(s, o, bound) && Enabled(s, step)
    ensures Sound(Apply(s, step), o, bound)
  {
    hide Sound;
    match step
    case List(_) => OthersKeep(s, Apply(s, step), o, bound);
    case Ask(p, x) =>
      if p == o {
        AskKeeps(s, o, x, bound);
      } else {
        OthersKeep(s, Apply(s, step), o, bound);
      }
    case ScanFails(_) => OthersKeep(s, Apply(s, step), o, bound);
    case Decide(p, x) =>
      if p == o && s.scans[o].count + InFlight(s.table, o) < s.limit {
        DecideKeeps(s, o, x, bound);
      } else {
        assert Mine(Apply(s, step).creating, o) == Mine(s.creating, o);
        OthersKeep(s, Apply(s, step), o, bound);
      }
    case Define(x) => DefineKeeps(s, o, x, bound);
    case Undefine(x) => UndefineKeeps(s, o, x, bound);
    case Release(x) => ReleaseKeeps(s, o, x, bound);
  }

  ghost predicate Runs(s: System, steps: seq<Step>)
    decreases |steps|
  {
    steps == [] || (Enabled(s, steps[0]) && Runs(Apply(s, steps[0]), steps[1..]))
  }

  ghost function Exec(s: System, steps: seq<Step>): System
    requires Runs(s, steps)
    decreases |steps|
  {
    if steps == [] then s else Exec(Apply(s, steps[0]), steps[1..])
  }

  lemma {:induction false} RunKeeps(s: System, steps: seq<Step>, o: Owner, bound: int)
    requires Sound(s, o, bound) && Runs(s, steps)
    ensures Sound(Exec(s, steps), o, bound)
    decreases |steps|
  {
    hide Sound, Enabled, Apply;
    if steps != [] {
      StepKeeps(s, steps[0], o, bound);
      RunKeeps(Apply(s, steps[0]), steps[1..], o, bound);
    }
  }

  /** No interleaving takes an owner past the limit, or past what they owned at the start. */
  lemma NeverOverLimit(limit: int, domains: map<Vm, Owner>, steps: seq<Step>, o: Owner)
    requires limit > 0 && Runs(Start(limit, domains), steps)
    ensures var s := Exec(Start(limit, domains), steps);
            |Mine(s.domains, o)| <= if limit < |Mine(domains, o)| then |Mine(domains, o)| else limit
  {
    var bound := if limit < |Mine(domains, o)| then |Mine(domains, o)| else limit;
    var s0 := Start(limit, domains);
    assert Mine(s0.creating, o) == {} && Held(s0, o) == Mine(domains, o);
    RunKeeps(s0, steps, o, bound);
    var s := Exec(s0, steps);
    Smaller(Mine(s.domains, o), Held(s, o));
  }

  /** With no creation of the owner visible yet and no change since the scan, admission is exact. */
  lemma AdmissionIsExact(s: System, o: Owner, x: Vm, bound: int)
    requires Sound(s, o, bound) && Enabled(s, Decide(o, x))
    requires s.scans[o].count == |Mine(s.domains, o)| && Mine(s.domains, o) !! Mine(s.creating, o)
    ensures x in Apply(s, Decide(o, x)).creating <==> |Held(s, o)| < s.limit
  {
    assert |Held(s, o)| == |Mine(s.domains, o)| + |Mine(s.creating, o)|;
  }
}
