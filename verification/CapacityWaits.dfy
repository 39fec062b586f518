/**
 Waiting for room in a full delivery spool. A writer takes the current change
 channel before it tries; an acknowledgement frees room in the store and then closes
 the channel and puts a new one in its place. Channels are numbered.
 */
module CapacityWaits {
  /** Channel `channel` is the open one; all earlier ones, and it too once closed, are closed. */
  datatype Gate = Gate(channel: nat, closed: bool, inFlight: int)

  function Begun(g: Gate): Gate {
    if g.closed then g else g.(inFlight := g.inFlight + 1)
  }

  function Announced(g: Gate): Gate {
    if g.closed then g else g.(channel := g.channel + 1)
  }

  predicate IsClosed(g: Gate, channel: nat) {
    channel < g.channel || g.closed
  }

  // Interleavings.

  /**
   `Trying` holds the channel it took; `Waiting` was refused when the store had seen
   `seen` acknowledgements. An acknowledger has begun, then has changed the store.
   */
  datatype Phase =
    | Trying(channel: nat)
    | Waiting(channel: nat, seen: nat)
    | Acknowledging
    | Acknowledged

  /** `acks` counts the store's acknowledgements; `stopped` says the store has been closed. */
  datatype System = System(gate: Gate, acks: nat, stopped: bool, threads: map<nat, Phase>)

  const START := System(Gate(0, false, 0), 0, false, map[])

  datatype Step =
    | BeginAppend(t: nat)
    | Refused(t: nat)
    | Stored(t: nat)
    | Retry(t: nat)
    | GiveUp(t: nat)
    | BeginAck(t: nat)
    | StoreAck(t: nat)
    | EndAck(t: nat)
    | CloseGate
    | CloseStore

  predicate Enabled(s: System, step: Step) {
    match step
    case BeginAppend(t) => t !in s.threads && !s.gate.closed
    case Refused(t) => t in s.threads && s.threads[t].Trying?
    case Stored(t) => t in s.threads && s.threads[t].Trying?
    case Retry(t) => t in s.threads && s.threads[t].Waiting? && IsClosed(s.gate, s.threads[t].channel) && !s.gate.closed
    case GiveUp(t) => t in s.threads && s.threads[t].Waiting?
    case BeginAck(t) => t !in s.threads && !s.gate.closed
    case StoreAck(t) => t in s.threads && s.threads[t].Acknowledging?
    case EndAck(t) => t in s.threads && s.threads[t].Acknowledged?
    case CloseGate => true
    case CloseStore => s.gate.closed && s.gate.inFlight == 0
  }

  function Finished(g: Gate): Gate {
    g.(inFlight := g.inFlight - 1)
  }

  function Apply(s: System, step: Step): System
    requires Enabled(s, step)
  {
    match step
    case BeginAppend(t) => s.(gate := Begun(s.gate), threads := s.threads[t := Trying(s.gate.channel)])
    case Refused(t) => s.(gate := Finished(s.gate), threads := s.threads[t := Waiting(s.threads[t].channel, s.acks)])
    case Stored(t) => s.(gate := Finished(s.gate), threads := s.threads - {t})
    case Retry(t) => s.(gate := Begun(s.gate), threads := s.threads[t := Trying(s.gate.channel)])
    case GiveUp(t) => s.(threads := s.threads - {t})
    case BeginAck(t) => s.(gate := Begun(s.gate), threads := s.threads[t := Acknowledging])
    case StoreAck(t) => s.(acks := s.acks + 1, threads := s.threads[t := Acknowledged])
    case EndAck(t) => s.(gate := Finished(Announced(s.gate)), threads := s.threads - {t})
    case CloseGate => s.(gate := s.gate.(closed := true))
    case CloseStore => s.(stopped := true)
  }

  ghost predicate Announcing(s: System) {
    exists t :: t in s.threads && s.threads[t].Acknowledged?
  }

  /** A waiter's refusal is still current, or its channel is closed, or is about to be. */
  ghost predicate NotForgotten(s: System) {
    forall t :: t in s.threads && s.threads[t].Waiting? ==>
      s.threads[t].seen == s.acks || IsClosed(s.gate, s.threads[t].channel) || Announcing(s)
  }

  ghost predicate ChannelsKnown(s: System) {
    forall t :: t in s.threads ==>
      (s.threads[t].Trying? || s.threads[t].Waiting? ==> s.threads[t].channel <= s.gate.channel)
  }

  /** The operations that a close must wait for. */
  function Busy(s: System): set<nat> {
    set t | t in s.threads && !s.threads[t].Waiting?
  }

  ghost predicate Inv(s: System) {
    && NotForgotten(s)
    && ChannelsKnown(s)
    && s.gate.inFlight == |Busy(s)|
    && (s.stopped ==> s.gate.closed && Busy(s) == {})
  }

  predicate Joins(step: Step) {
    step.BeginAppend? || step.Retry? || step.BeginAck?
  }

  predicate Leaves(step: Step) {
    step.Refused? || step.Stored? || step.EndAck?
  }

  lemma BusyChanges(s: System, step: Step)
    requires Enabled(s, step)
    ensures Joins(step) ==> step.t !in Busy(s) && Busy(Apply(s, step)) == Busy(s) + {step.t}
    ensures Leaves(step) ==> step.t in Busy(s) && Busy(Apply(s, step)) == Busy(s) - {step.t}
    ensures !Joins(step) && !Leaves(step) ==> Busy(Apply(s, step)) == Busy(s)
  {
  }

  lemma BusyCounted(s: System, step: Step)
    requires Enabled(s, step) && s.gate.inFlight == |Busy(s)|
    ensures Apply(s, step).gate.inFlight == |Busy(Apply(s, step))|
  {
    hide Busy;
    BusyChanges(s, step);
  }

  /** The end of an acknowledgement closes the channel of everyone who waits. */
  lemma NotForgottenKept(s: System, step: Step)
    requires NotForgotten(s) && ChannelsKnown(s) && Enabled(s, step)
    ensures NotForgotten(Apply(s, step))
  {
    var s1 := Apply(s, step);
    match step
    case StoreAck(t) => assert s1.threads[t].Acknowledged?;
    case EndAck(t) =>
      forall u | u in s1.threads && s1.threads[u].Waiting? ensures IsClosed(s1.gate, s1.threads[u].channel) {
        assert s.threads[u].channel <= s.gate.channel;
      }
    case _ =>
      forall u | u in s.threads && s.threads[u].Acknowledged? ensures Announcing(s1) {
        assert s1.threads[u].Acknowledged?;
      }
  }

  lemma StepKeeps(s: System, step: Step)
    requires Inv(s) && Enabled(s, step)
    ensures Inv(Apply(s, step))
  {
    NotForgottenKept(s, step);
    BusyCounted(s, step);
    hide NotForgotten;
    if s.stopped {
      forall t | t in s.threads ensures s.threads[t].Waiting? {
        assert t !in Busy(s);
      }
      assert Busy(Apply(s, step)) == {};
    }
  }

  ghost predicate Runs(s: System, steps: seq<Step>)
    decreases |steps|
  {
    steps == [] || (Enabled(s, steps[0]) && Runs(Apply(s, steps[0]), steps[1..]))
  }

  ghost function Exec(s: System, steps: seq<Step>): System
    requires Runs(s, steps)
    decreases |steps|
  {
    if steps == [] then s else Exec(Apply(s, steps[0]), steps[1..])
  }

  lemma {:induction false} RunKeeps(s: System, steps: seq<Step>)
    requires Inv(s) && Runs(s, steps)
    ensures Inv(Exec(s, steps))
    decreases |steps|
  {
    hide Inv, Enabled, Apply;
    if steps != [] {
      StepKeeps(s, steps[0]);
      RunKeeps(Apply(s, steps[0]), steps[1..]);
    }
  }

  /** No lost wake-up: with no acknowledgement under way, whoever still waits was refused after the last one. */
  lemma NoLostWakeUp(steps: seq<Step>, t: nat)
    requires Runs(START, steps)
    requires var s := Exec(START, steps);
             t in s.threads && s.threads[t].Waiting? && !IsClosed(s.gate, s.threads[t].channel) && !Announcing(s)
    ensures var s := Exec(START, steps); s.threads[t].seen == s.acks
  {
    assert Busy(START) == {};
    RunKeeps(START, steps);
  }

  /** The store is closed only when no operation on it is under way, and none begins after. */
  lemma CloseWaits(steps: seq<Step>)
    requires Runs(START, steps) && Exec(START, steps).stopped
    ensures Busy(Exec(START, steps)) == {}
  {
    assert Busy(START) == {};
    RunKeeps(START, steps);
  }
}
