/**
 RDP readiness in the VM inventory: probe results merged into the snapshot by
 observation number, and generations that tie a result to the target it probed.
 */
module Readiness {
  import opened Framing

  /** What a probe is about; a change of any of it makes another target. */
  datatype Target = Target(name: nat, owner: nat, ip: nat, createdAt: int, running: bool)

  datatype Vm = Vm(target: Target, ready: bool, generation: nat, observation: nat)

  /** Observation 0 is an unnumbered result. */
  datatype Result = Result(name: nat, owner: nat, ip: nat, generation: nat, ready: bool, observation: nat)

  predicate Matches(vm: Vm, r: Result) {
    && vm.target.name == r.name && vm.target.owner == r.owner && vm.target.ip == r.ip
    && vm.generation == r.generation && vm.target.running
  }

  function MergeInto(vm: Vm, r: Result): Vm {
    if !Matches(vm, r) || (r.observation != 0 && r.observation <= vm.observation) then vm
    else vm.(ready := r.ready, observation := if r.observation != 0 then r.observation else vm.observation)
  }

  /** The last entry of a name, or None. */
  function LastOf(vms: seq<Vm>, name: nat): (i: Option<nat>)
    ensures i.Some? ==> i.value < |vms| && vms[i.value].target.name == name
    ensures forall j :: 0 <= j < |vms| && vms[j].target.name == name ==> i.Some? && j <= i.value
    decreases |vms|
  {
    if vms == [] then None
    else if vms[|vms| - 1].target.name == name then Some(|vms| - 1)
    else LastOf(vms[..|vms| - 1], name)
  }

  function MergeOne(vms: seq<Vm>, r: Result): seq<Vm> {
    match LastOf(vms, r.name)
    case None => vms
    case Some(i) => vms[i := MergeInto(vms[i], r)]
  }

  function MergeAll(vms: seq<Vm>, results: seq<Result>): seq<Vm>
    decreases |results|
  {
    if results == [] then vms
    else MergeOne(MergeAll(vms, results[..|results| - 1]), results[|results| - 1])
  }

  /** The n-th result turns somebody's readiness. */
  predicate Turns(vms: seq<Vm>, results: seq<Result>, n: nat)
    requires n < |results|
  {
    var before, after := MergeAll(vms, results[..n]), MergeAll(vms, results[..n + 1]);
    exists i :: 0 <= i < |before| && i < |after| && before[i].ready != after[i].ready
  }

  predicate Turned(vms: seq<Vm>, results: seq<Result>, n: nat)
    requires n <= |results|
  {
    exists k: nat :: k < n && Turns(vms, results, k)
  }

  lemma NoneTurned(vms: seq<Vm>, results: seq<Result>)
    ensures !Turned(vms, results, 0)
  {
  }

  lemma TurnedNext(vms: seq<Vm>, results: seq<Result>, n: nat)
    requires n < |results|
    ensures Turned(vms, results, n + 1) <==> Turned(vms, results, n) || Turns(vms, results, n)
  {
    hide Turns;
    if Turns(vms, results, n) {
      assert Turned(vms, results, n + 1);
    }
    if Turned(vms, results, n) {
      var k: nat :| k < n && Turns(vms, results, k);
      assert k < n + 1;
    }
  }

  /** Which entry a result can turn, and when. */
  lemma TurnsHere(vms: seq<Vm>, results: seq<Result>, n: nat)
    requires n < |results|
    ensures var before, r := MergeAll(vms, results[..n]), results[n];
            var i := LastOf(before, r.name);
            Turns(vms, results, n) <==> i.Some? && MergeInto(before[i.value], r).ready != before[i.value].ready
  {
    hide LastOf;
    var before, r := MergeAll(vms, results[..n]), results[n];
    assert results[..n + 1][..n] == results[..n];
    var after := MergeAll(vms, results[..n + 1]);
    assert after == MergeOne(before, r);
    hide MergeAll;
    if i: nat :| i < |before| && i < |after| && before[i].ready != after[i].ready {
      assert LastOf(before, r.name) == Some(i);
    }
    var i := LastOf(before, r.name);
    if i.Some? {
      assert after[i.value] == MergeInto(before[i.value], r);
    }
  }

  lemma {:induction false} UnturnedSame(vms: seq<Vm>, results: seq<Result>, n: nat)
    requires n <= |results|
    ensures var after := MergeAll(vms, results[..n]);
            |after| == |vms| && (!Turned(vms, results, n) ==> forall i :: 0 <= i < |vms| ==> after[i].ready == vms[i].ready)
    decreases n
  {
    if n > 0 {
      UnturnedSame(vms, results, n - 1);
      TurnedNext(vms, results, n - 1);
      assert results[..n][..n - 1] == results[..n - 1];
    }
  }

  // Order does not matter within one generation.

  lemma SameLast(vms: seq<Vm>, other: seq<Vm>, name: nat)
    requires |vms| == |other| && forall i :: 0 <= i < |vms| ==> vms[i].target == other[i].target
    ensures LastOf(vms, name) == LastOf(other, name)
  {
  }

  lemma MergesCommute(vms: seq<Vm>, x: Result, y: Result)
    requires x.observation != y.observation && x.observation != 0 && y.observation != 0
    ensures MergeOne(MergeOne(vms, x), y) == MergeOne(MergeOne(vms, y), x)
  {
    SameLast(vms, MergeOne(vms, x), y.name);
    SameLast(vms, MergeOne(vms, y), x.name);
    hide LastOf;
  }

  predicate Numbered(results: seq<Result>) {
    && (forall i :: 0 <= i < |results| ==> results[i].observation != 0)
    && (forall i, j :: 0 <= i < j < |results| ==> results[i].observation != results[j].observation)
  }

  /** A numbered result can be applied last instead of where it stands. */
  lemma {:induction false} MoveLast(vms: seq<Vm>, before: seq<Result>, x: Result, after: seq<Result>)
    requires Numbered(before + [x] + after)
    ensures MergeAll(vms, before + [x] + after) == MergeOne(MergeAll(vms, before + after), x)
    decreases |after|
  {
    hide MergeOne;
    var whole := before + [x] + after;
    if after == [] {
      assert whole[..|whole| - 1] == before && before + after == before;
    } else {
      var n := |after| - 1;
      var y := after[n];
      assert whole[|before|] == x && whole[|whole| - 1] == y;
      assert whole[..|whole| - 1] == before + [x] + after[..n];
      NumberedPrefix(whole, |whole| - 1);
      MoveLast(vms, before, x, after[..n]);
      assert (before + after)[..|before + after| - 1] == before + after[..n] && (before + after)[|before + after| - 1] == y;
      MergesCommute(MergeAll(vms, before + after[..n]), x, y);
    }
  }

  lemma NumberedPrefix(results: seq<Result>, n: nat)
    requires Numbered(results) && n <= |results|
    ensures Numbered(results[..n])
  {
  }

  /** Where a result of one order stands in the other, and what is left around it. */
  lemma Locate(a: seq<Result>, b: seq<Result>) returns (before: seq<Result>, after: seq<Result>)
    requires a != [] && multiset(a) == multiset(b) && Numbered(b)
    ensures b == before + [a[|a| - 1]] + after
    ensures Numbered(before + after) && multiset(before + after) == multiset(a[..|a| - 1])
  {
    hide Numbered;
    var x := a[|a| - 1];
    Split(a);
    assert x in multiset(b);
    var j :| 0 <= j < |b| && b[j] == x;
    before, after := b[..j], b[j + 1..];
    assert b == before + [x] + after;
    Without(before, x, after);
    Cancel(multiset(before + after), multiset(a[..|a| - 1]), x);
  }

  lemma Split(a: seq<Result>)
    requires a != []
    ensures multiset(a) == multiset(a[..|a| - 1]) + multiset{a[|a| - 1]}
  {
    assert a == a[..|a| - 1] + [a[|a| - 1]];
  }

  lemma Cancel(p: multiset<Result>, q: multiset<Result>, x: Result)
    requires p + multiset{x} == q + multiset{x}
    ensures p == q
  {
    assert p == (p + multiset{x}) - multiset{x};
    assert q == (q + multiset{x}) - multiset{x};
  }

  /** Results with distinct observation numbers give the same snapshot in any order. */
  lemma {:induction false} OrderIrrelevant(vms: seq<Vm>, a: seq<Result>, b: seq<Result>)
    requires multiset(a) == multiset(b) && Numbered(a) && Numbered(b)
    ensures MergeAll(vms, a) == MergeAll(vms, b)
    decreases |a|
  {
    hide MergeOne, Numbered;
    if a == [] {
      assert |b| == |multiset(b)| == 0;
    } else {
      var before, after := Locate(a, b);
      MoveLast(vms, before, a[|a| - 1], after);
      NumberedPrefix(a, |a| - 1);
      OrderIrrelevant(vms, a[..|a| - 1], before + after);
    }
  }

  lemma Without(before: seq<Result>, x: Result, after: seq<Result>)
    requires Numbered(before + [x] + after)
    ensures Numbered(before + after)
    ensures multiset(before + [x] + after) == multiset(before + after) + multiset{x}
  {
    var whole := before + [x] + after;
    var rest := before + after;
    forall i | 0 <= i < |rest| ensures rest[i] == whole[if i < |before| then i else i + 1] {
    }
  }

  // Which readiness a merge yields.

  predicate Probes(job: Result, vm: Vm) {
    job.name == vm.target.name && job.owner == vm.target.owner && job.ip == vm.target.ip && job.generation == vm.generation
  }

  /** The result is about this very entry: same name, owner and address, probed under its generation, still running. */
  predicate About(r: Result, vm: Vm) {
    Probes(r, vm) && vm.target.running
  }

  predicate LastNamed(vms: seq<Vm>, i: nat) {
    i < |vms| && forall j :: i < j < |vms| ==> vms[j].target.name != vms[i].target.name
  }

  /** Of the results about the entry the j-th was observed last, and after what the entry shows. */
  predicate Decides(vm: Vm, results: seq<Result>, j: nat) {
    && j < |results| && About(results[j], vm) && results[j].observation > vm.observation
    && forall k :: 0 <= k < |results| && About(results[k], vm) ==> results[k].observation <= results[j].observation
  }

  predicate NothingNewer(vm: Vm, results: seq<Result>) {
    forall k :: 0 <= k < |results| && About(results[k], vm) ==> results[k].observation <= vm.observation
  }

  lemma LastIs(vms: seq<Vm>, i: nat)
    requires i < |vms|
    ensures LastOf(vms, vms[i].target.name) == Some(i) <==> LastNamed(vms, i)
  {
  }

  /** The entry as one more result leaves it. */
  lemma MergedOnce(vms: seq<Vm>, merged: seq<Vm>, r: Result, i: nat)
    requires |merged| == |vms| && i < |vms|
    requires forall k :: 0 <= k < |vms| ==> merged[k].target == vms[k].target && merged[k].generation == vms[k].generation
    ensures LastNamed(vms, i) && About(r, vms[i]) && r.observation > merged[i].observation ==>
              MergeOne(merged, r)[i] == merged[i].(ready := r.ready, observation := r.observation)
    ensures !LastNamed(vms, i) || !About(r, vms[i]) || 0 < r.observation <= merged[i].observation ==>
              MergeOne(merged, r)[i] == merged[i]
  {
    SameLast(vms, merged, r.name);
    LastIs(vms, i);
    hide LastOf;
  }

  /** `m` is the entry with the readiness and number of the latest result about it, if that is later than its own. */
  ghost predicate Yields(vm: Vm, results: seq<Result>, m: Vm) {
    || (NothingNewer(vm, results) && m == vm)
    || exists j: nat :: Decides(vm, results, j) && m == vm.(ready := results[j].ready, observation := results[j].observation)
  }

  lemma YieldsNext(vm: Vm, front: seq<Result>, r: Result, m: Vm)
    requires Yields(vm, front, m)
    ensures Yields(vm, front + [r], if About(r, vm) && r.observation > m.observation then m.(ready := r.ready, observation := r.observation) else m)
  {
    var results := front + [r];
    assert forall k :: 0 <= k < |front| ==> results[k] == front[k];
    if About(r, vm) && r.observation > m.observation {
      assert Decides(vm, results, |front|);
    } else if j: nat :| Decides(vm, front, j) && m == vm.(ready := front[j].ready, observation := front[j].observation) {
      assert Decides(vm, results, j);
    }
  }

  /** The last entry of a name ends as the latest result about it says; every other entry stays as it was. */
  lemma {:induction false} MergeIsLatest(vms: seq<Vm>, results: seq<Result>, i: nat)
    requires Numbered(results) && i < |vms|
    ensures |MergeAll(vms, results)| == |vms|
    ensures if LastNamed(vms, i) then Yields(vms[i], results, MergeAll(vms, results)[i]) else MergeAll(vms, results)[i] == vms[i]
    decreases |results|
  {
    MergeKeepsTargets(vms, results);
    if results != [] {
      var n := |results| - 1;
      var front, r := results[..n], results[n];
      NumberedPrefix(results, n);
      MergeKeepsTargets(vms, front);
      MergeIsLatest(vms, front, i);
      var merged := MergeAll(vms, front);
      MergedOnce(vms, merged, r, i);
      hide MergeOne, Yields, LastNamed;
      if LastNamed(vms, i) {
        YieldsNext(vms[i], front, r, merged[i]);
        assert front + [r] == results;
      }
    }
  }

  // Generations.

  datatype Inventory = Inventory(vms: seq<Vm>, nextGeneration: nat)

  function CarryOver(previous: seq<Vm>, target: Target, generation: nat): (Vm, nat) {
    var last := LastOf(previous, target.name);
    if last.Some? && previous[last.value].target == target then
      var vm := previous[last.value];
      (vm.(ready := vm.ready && target.running), generation)
    else (Vm(target, false, generation + 1, 0), generation + 1)
  }

  function Refresh(previous: seq<Vm>, targets: seq<Target>, generation: nat): (seq<Vm>, nat)
    decreases |targets|
  {
    if targets == [] then ([], generation)
    else
      var (vms, g) := Refresh(previous, targets[..|targets| - 1], generation);
      var (vm, g1) := CarryOver(previous, targets[|targets| - 1], g);
      (vms + [vm], g1)
  }

  /** `targets[g]` is what generation g was issued for. */
  datatype System = System(inventory: Inventory, targets: map<nat, Target>)

  const START := System(Inventory([], 0), map[])

  datatype Step = Snapshot(targets: seq<Target>) | Results(results: seq<Result>)

  function Noted(targets: map<nat, Target>, vms: seq<Vm>): map<nat, Target>
    decreases |vms|
  {
    if vms == [] then targets
    else
      var before := Noted(targets, vms[..|vms| - 1]);
      var vm := vms[|vms| - 1];
      if vm.generation in before then before else before[vm.generation := vm.target]
  }

  function Apply(s: System, step: Step): System {
    match step
    case Snapshot(targets) =>
      var (vms, g) := Refresh(s.inventory.vms, targets, s.inventory.nextGeneration);
      System(Inventory(vms, g), Noted(s.targets, vms))
    case Results(results) =>
      s.(inventory := s.inventory.(vms := MergeAll(s.inventory.vms, results)))
  }

  /** Every generation in use belongs to one target, and none beyond the counter was issued. */
  ghost predicate Sound(vms: seq<Vm>, targets: map<nat, Target>, limit: nat) {
    && (forall i :: 0 <= i < |vms| ==> vms[i].generation in targets && targets[vms[i].generation] == vms[i].target)
    && (forall g :: g in targets ==> g <= limit)
  }

  ghost predicate Inv(s: System) {
    Sound(s.inventory.vms, s.targets, s.inventory.nextGeneration)
  }

  lemma {:induction false} MergeKeepsTargets(vms: seq<Vm>, results: seq<Result>)
    ensures var merged := MergeAll(vms, results);
            |merged| == |vms| && forall i :: 0 <= i < |vms| ==>
              merged[i].target == vms[i].target && merged[i].generation == vms[i].generation
    decreases |results|
  {
    if results != [] {
      MergeKeepsTargets(vms, results[..|results| - 1]);
    }
  }

  ghost predicate Extends(a: map<nat, Target>, b: map<nat, Target>) {
    forall g :: g in a ==> g in b && b[g] == a[g]
  }

  lemma {:induction false} RefreshKeeps(previous: seq<Vm>, list: seq<Target>, targets: map<nat, Target>, g: nat)
    requires Sound(previous, targets, g)
    ensures var (vms, g1) := Refresh(previous, list, g);
            Sound(vms, Noted(targets, vms), g1) && g <= g1 && Extends(targets, Noted(targets, vms))
    decreases |list|
  {
    if list != [] {
      var front := list[..|list| - 1];
      RefreshKeeps(previous, front, targets, g);
      var (vms, g1) := Refresh(previous, front, g);
      var (vm, g2) := CarryOver(previous, list[|list| - 1], g1);
      assert (vms + [vm])[..|vms + [vm]| - 1] == vms;
    }
  }

  /** The last entry of the target's name was about this very target. */
  predicate Known(previous: seq<Vm>, target: Target, i: nat) {
    LastNamed(previous, i) && previous[i].target == target
  }

  /**
   A refresh lists the targets in order. One that was listed before goes on under its
   generation, ready only while it runs; any other starts unready under a new one.
   */
  lemma {:induction false} RefreshCarries(previous: seq<Vm>, list: seq<Target>, g: nat, n: nat)
    requires n < |list|
    ensures var (vms, g1) := Refresh(previous, list, g);
            && |vms| == |list| && vms[n].target == list[n] && g <= g1
            && (forall i: nat :: Known(previous, list[n], i) ==>
                  vms[n] == previous[i].(ready := previous[i].ready && list[n].running))
            && ((forall i: nat :: !Known(previous, list[n], i)) ==> !vms[n].ready && vms[n].observation == 0 && g < vms[n].generation <= g1)
    decreases |list|
  {
    var k := |list| - 1;
    var front := list[..k];
    RefreshSize(previous, front, g);
    var last := LastOf(previous, list[n].name);
    if last.Some? {
      LastIs(previous, last.value);
      assert previous[last.value].target == list[n] ==> Known(previous, list[n], last.value);
    }
    forall i: nat | Known(previous, list[n], i) ensures last == Some(i) {
      LastIs(previous, i);
    }
    if n < k {
      RefreshCarries(previous, front, g, n);
    }
    hide LastOf, Known;
  }

  lemma {:induction false} RefreshSize(previous: seq<Vm>, list: seq<Target>, g: nat)
    ensures |Refresh(previous, list, g).0| == |list| && g <= Refresh(previous, list, g).1
    decreases |list|
  {
    if list != [] {
      RefreshSize(previous, list[..|list| - 1], g);
    }
  }

  lemma StepKeeps(s: System, step: Step)
    requires Inv(s)
    ensures Inv(Apply(s, step)) && Extends(s.targets, Apply(s, step).targets)
  {
    match step
    case Snapshot(list) => RefreshKeeps(s.inventory.vms, list, s.targets, s.inventory.nextGeneration);
    case Results(results) => MergeKeepsTargets(s.inventory.vms, results);
  }

  function Exec(s: System, steps: seq<Step>): System
    decreases |steps|
  {
    if steps == [] then s else Exec(Apply(s, steps[0]), steps[1..])
  }

  lemma {:induction false} RunKeeps(s: System, steps: seq<Step>)
    requires Inv(s)
    ensures Inv(Exec(s, steps)) && Extends(s.targets, Exec(s, steps).targets)
    decreases |steps|
  {
    hide Inv, Apply;
    if steps != [] {
      StepKeeps(s, steps[0]);
      RunKeeps(Apply(s, steps[0]), steps[1..]);
    }
  }

  /**
   A result changes an entry only if that entry is the very target that was probed,
   with the same creation time and running state, however many snapshots came between.
   */
  lemma StaleResultIgnored(early: seq<Step>, i: nat, later: seq<Step>, j: nat, r: Result)
    requires i < |Exec(START, early).inventory.vms| && Probes(r, Exec(START, early).inventory.vms[i])
    requires j < |Exec(Exec(START, early), later).inventory.vms|
    ensures var probed := Exec(START, early).inventory.vms[i];
            var vm := Exec(Exec(START, early), later).inventory.vms[j];
            MergeInto(vm, r) != vm ==> vm.target == probed.target && vm.observation <= MergeInto(vm, r).observation
  {
    RunKeeps(START, early);
    RunKeeps(Exec(START, early), later);
  }

  // The inventory as it runs.

  /** Address 0 and owner 0 stand for missing ones. */
  predicate Probeable(vm: Vm, owner: nat) {
    vm.target.owner == owner && owner != 0 && vm.target.running && vm.target.ip != 0
  }

  datatype Job = Job(name: nat, owner: nat, ip: nat, generation: nat)

  class VmInventory {
    var vms: seq<Vm>
    var nextGeneration: nat

    constructor ()
      ensures vms == [] && nextGeneration == 0
    {
      vms, nextGeneration := [], 0;
    }

    /** One job per name, each about an entry that can be probed, and none missing. */
    method Jobs(owner: nat) returns (jobs: seq<Job>)
      ensures forall k :: 0 <= k < |jobs| ==>
                exists i :: 0 <= i < |vms| && Probeable(vms[i], owner)
                            && jobs[k] == Job(vms[i].target.name, owner, vms[i].target.ip, vms[i].generation)
      ensures forall i :: 0 <= i < |vms| && Probeable(vms[i], owner) ==>
                exists k :: 0 <= k < |jobs| && jobs[k].name == vms[i].target.name
      ensures forall k, l :: 0 <= k < l < |jobs| ==> jobs[k].name != jobs[l].name
    {
      jobs := [];
      var seen: set<nat> := {};
      for n := 0 to |vms|
        invariant forall k :: 0 <= k < |jobs| ==>
                    exists i :: 0 <= i < |vms| && Probeable(vms[i], owner)
                                && jobs[k] == Job(vms[i].target.name, owner, vms[i].target.ip, vms[i].generation)
        invariant forall i :: 0 <= i < n && Probeable(vms[i], owner) ==> vms[i].target.name in seen
        invariant forall name :: name in seen <==> exists k :: 0 <= k < |jobs| && jobs[k].name == name
        invariant forall k, l :: 0 <= k < l < |jobs| ==> jobs[k].name != jobs[l].name
      {
        var vm := vms[n];
        if !Probeable(vm, owner) || vm.target.name in seen {
          continue;
        }
        ghost var was := jobs;
        seen := seen + {vm.target.name};
        jobs := jobs + [Job(vm.target.name, owner, vm.target.ip, vm.generation)];
        assert jobs[|was|].name == vm.target.name;
        forall name | name in seen ensures exists k :: 0 <= k < |jobs| && jobs[k].name == name {
          if name != vm.target.name {
            var k :| 0 <= k < |was| && was[k].name == name;
            assert jobs[k].name == name;
          }
        }
      }
    }

    method Indexes() returns (indexes: map<nat, nat>)
      ensures forall name :: name in indexes <==> LastOf(vms, name).Some?
      ensures forall name :: name in indexes ==> LastOf(vms, name) == Some(indexes[name])
    {
      indexes := map[];
      for i := 0 to |vms|
        invariant forall name :: name in indexes <==> LastOf(vms[..i], name).Some?
        invariant forall name :: name in indexes ==> LastOf(vms[..i], name) == Some(indexes[name])
      {
        assert vms[..i + 1][..i] == vms[..i];
        indexes := indexes[vms[i].target.name := i];
      }
      assert vms[..|vms|] == vms;
    }

    /** Without `changed` nobody's readiness differs from before. */
    method ApplyResults(results: seq<Result>) returns (changed: bool)
      modifies this`vms
      ensures vms == MergeAll(old(vms), results)
      ensures !changed ==> |vms| == |old(vms)| && forall i :: 0 <= i < |vms| ==> vms[i].ready == old(vms)[i].ready
      ensures changed <==> Turned(old(vms), results, |results|)
    {
      hide Turns, Turned;
      var indexes := Indexes();
      changed := false;
      NoneTurned(old(vms), results);
      for n := 0 to |results|
        invariant vms == MergeAll(old(vms), results[..n])
        invariant changed <==> Turned(old(vms), results, n)
      {
        TurnedNext(old(vms), results, n);
        TurnsHere(old(vms), results, n);
        var r := results[n];
        assert results[..n + 1][..n] == results[..n];
        MergeKeepsTargets(old(vms), results[..n]);
        SameLast(old(vms), vms, r.name);
        if r.name !in indexes {
          continue;
        }
        var i := indexes[r.name];
        var vm := vms[i];
        if !Matches(vm, r) || (r.observation != 0 && r.observation <= vm.observation) {
          assert vms[i := vm] == vms;
          continue;
        }
        if r.observation != 0 {
          vm := vm.(observation := r.observation);
        }
        if vm.ready != r.ready {
          vm := vm.(ready := r.ready);
          changed := true;
        }
        vms := vms[i := vm];
      }
      assert results[..|results|] == results;
      UnturnedSame(old(vms), results, |results|);
    }

    method SetVms(targets: seq<Target>)
      modifies this
      ensures (vms, nextGeneration) == Refresh(old(vms), targets, old(nextGeneration))
    {
      var next: seq<Vm> := [];
      for i := 0 to |targets|
        invariant vms == old(vms)
        invariant (next, nextGeneration) == Refresh(old(vms), targets[..i], old(nextGeneration))
      {
        assert targets[..i + 1][..i] == targets[..i];
        var target := targets[i];
        var last := LastOf(vms, target.name);
        if last.Some? && vms[last.value].target == target {
          var vm := vms[last.value];
          next := next + [vm.(ready := if target.running then vm.ready else false)];
          continue;
        }
        nextGeneration := nextGeneration + 1;
        next := next + [Vm(target, false, nextGeneration, 0)];
      }
      assert targets[..|targets|] == targets;
      vms := next;
    }
  }
}
