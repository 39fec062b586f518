/**
 Every interleaving of connection setup with logout. Setup captures the user's
 generation, validates the stored session, and registers, each atomically; logout
 deletes the user's sessions, then revokes, then calls the close functions it took.
 */
module SessionRevocation {
  import opened Framing
  import opened SessionRegistry

  type SessionId = nat

  datatype Phase = Captured | Ticketed | Registered(id: nat) | Refused | Ended

  /** `session` is the stored session the ticket was issued from, once validated. */
  datatype Setup = Setup(user: User, generation: nat, session: Option<SessionId>, phase: Phase)

  /** `revoked` is the generation the logout began, once it has revoked. */
  datatype Logout = Logout(user: User, deleted: set<SessionId>, revoked: Option<nat>)

  /** `pending[c]` are the close functions that closer c has taken and not yet called. */
  datatype System = System(
    store: map<SessionId, User>,
    used: set<SessionId>,
    registry: Registry,
    setups: map<Handle, Setup>,
    logouts: map<nat, Logout>,
    pending: map<nat, set<Handle>>,
    closed: set<Handle>)

  function Start(limit: int): System {
    System(map[], {}, Registry(map[], 0, map[], false, 0, limit), map[], map[], map[], {})
  }

  datatype Step =
    | Login(s: SessionId, u: User)
    | Drop(s: SessionId)
    | Capture(x: Handle, u: User)
    | Validate(x: Handle, s: SessionId, storeFails: bool)
    | Join(x: Handle, deadline: int, now: int)
    | Leave(x: Handle)
    | DeleteSessions(l: nat, u: User, failed: set<SessionId>)
    | RevokeUser(l: nat)
    | ShutDown(c: nat)
    | CallClose(c: nat, x: Handle)

  predicate Enabled(s: System, step: Step) {
    match step
    case Login(id, _) => id !in s.used
    case Drop(_) => true
    case Capture(x, _) => x !in s.setups
    case Validate(x, _, _) => x in s.setups && s.setups[x].phase.Captured?
    case Join(x, _, _) => x in s.setups && s.setups[x].phase.Ticketed?
    case Leave(x) => x in s.setups && s.setups[x].phase.Registered?
    case DeleteSessions(l, _, _) => l !in s.logouts && l !in s.pending
    case RevokeUser(l) => l in s.logouts && s.logouts[l].revoked.None? && l !in s.pending
    case ShutDown(c) => c !in s.logouts && c !in s.pending
    case CallClose(c, x) => c in s.pending && x in s.pending[c]
  }

  function Deleted(s: System, u: User, failed: set<SessionId>): set<SessionId> {
    set id | id in s.store && s.store[id] == u && id !in failed
  }

  function Apply(s: System, step: Step): System
    requires Enabled(s, step)
  {
    match step
    case Login(id, u) => s.(store := s.store[id := u], used := s.used + {id})
    case Drop(id) => s.(store := s.store - {id})
    case Capture(x, u) => s.(setups := s.setups[x := Setup(u, Generation(s.registry, u), None, Captured)])
    case Validate(x, id, storeFails) =>
      var setup := s.setups[x];
      var found := !storeFails && id in s.store && s.store[id] == setup.user;
      s.(setups := s.setups[x := if found then setup.(session := Some(id), phase := Ticketed)
                                 else setup.(phase := Refused)])
    case Join(x, deadline, now) =>
      var setup := s.setups[x];
      var t := Ticket(true, setup.user, setup.generation, deadline);
      if Admits(s.registry, t, now) then
        s.(registry := Register(s.registry, t, x),
           setups := s.setups[x := setup.(phase := Registered(s.registry.next + 1))])
      else s.(setups := s.setups[x := setup.(phase := Refused)])
    case Leave(x) =>
      var setup := s.setups[x];
      s.(registry := Unregister(s.registry, setup.user, setup.phase.id),
         setups := s.setups[x := setup.(phase := Ended)])
    case DeleteSessions(l, u, failed) =>
      var gone := Deleted(s, u, failed);
      s.(store := s.store - gone, logouts := s.logouts[l := Logout(u, gone, None)])
    case RevokeUser(l) =>
      var u := s.logouts[l].user;
      s.(registry := Revoke(s.registry, u),
         logouts := s.logouts[l := s.logouts[l].(revoked := Some(Generation(s.registry, u) + 1))],
         pending := s.pending[l := Of(s.registry, u).Values])
    case ShutDown(c) =>
      s.(registry := Shut(s.registry), pending := s.pending[c := AllHandles(s.registry)])
    case CallClose(c, x) =>
      s.(pending := s.pending[c := s.pending[c] - {x}], closed := s.closed + {x})
  }

  // The invariant.

  /** A close function that was called, or that some closer is about to call. */
  ghost predicate Taken(s: System, x: Handle) {
    x in s.closed || exists c :: c in s.pending && x in s.pending[c]
  }

  ghost predicate SessionsSound(s: System) {
    && (forall id :: id in s.store ==> id in s.used)
    && (forall l, id :: l in s.logouts && id in s.logouts[l].deleted ==> id in s.used && id !in s.store)
    && (forall x :: x in s.setups && s.setups[x].session.Some? ==>
          var id := s.setups[x].session.value;
          && id in s.used
          && (id in s.store ==> s.store[id] == s.setups[x].user)
          && (forall l :: l in s.logouts && id in s.logouts[l].deleted ==> s.logouts[l].user == s.setups[x].user))
  }

  ghost predicate NotAhead(s: System) {
    && (forall x :: x in s.setups ==> s.setups[x].generation <= Generation(s.registry, s.setups[x].user))
    && (forall l :: l in s.logouts && s.logouts[l].revoked.Some? ==>
          s.logouts[l].revoked.value <= Generation(s.registry, s.logouts[l].user))
  }

  /** A setup authorized from a deleted session captured a generation before the revocation. */
  ghost predicate DeletedOlder(s: System) {
    forall x, l :: x in s.setups && l in s.logouts && s.setups[x].session.Some?
                   && s.setups[x].session.value in s.logouts[l].deleted && s.logouts[l].revoked.Some?
      ==> s.setups[x].generation < s.logouts[l].revoked.value
  }

  ghost predicate GenerationsSound(s: System) {
    NotAhead(s) && DeletedOlder(s)
  }

  /** Every registry entry is a registered setup of the current generation. */
  ghost predicate Listed(s: System) {
    forall u, id :: EntrySound(s, u, id)
  }

  ghost predicate EntrySound(s: System, u: User, id: nat) {
    u in s.registry.users && id in s.registry.users[u] ==>
      var x := s.registry.users[u][id];
      && id <= s.registry.next && x in s.setups && s.setups[x].user == u
      && s.setups[x].phase == Registered(id) && s.setups[x].generation == Generation(s.registry, u)
  }

  ghost predicate InRegistry(s: System, x: Handle, id: nat)
    requires x in s.setups
  {
    id in Of(s.registry, s.setups[x].user) && Of(s.registry, s.setups[x].user)[id] == x
  }

  /** Every registered setup is in the registry or its close function was taken. */
  ghost predicate Accounted(s: System) {
    forall x :: x in s.setups && s.setups[x].phase.Registered? ==>
      s.setups[x].phase.id <= s.registry.next && (InRegistry(s, x, s.setups[x].phase.id) || Taken(s, x))
  }

  ghost predicate IdsDistinct(s: System) {
    forall x, y :: x in s.setups && y in s.setups && x != y
                   && s.setups[x].phase.Registered? && s.setups[y].phase.Registered?
      ==> s.setups[x].phase.id != s.setups[y].phase.id
  }

  function Live(s: System): set<Handle> {
    set x | x in s.setups && s.setups[x].phase.Registered?
  }

  ghost predicate Limited(r: Registry) {
    r.limit > 0 ==> forall u :: u in r.users ==> |r.users[u]| <= r.limit
  }

  ghost predicate Counted(s: System) {
    s.registry.active == |Live(s)| && Limited(s.registry)
  }

  ghost predicate Inv(s: System) {
    SessionsSound(s) && GenerationsSound(s) && Listed(s) && Accounted(s) && IdsDistinct(s) && Counted(s)
  }

  // Preservation.

  lemma SessionsKept(s: System, step: Step)
    requires SessionsSound(s) && Enabled(s, step)
    ensures SessionsSound(Apply(s, step))
  {
  }

  lemma GenerationsKept(s: System, step: Step)
    requires SessionsSound(s) && GenerationsSound(s) && Enabled(s, step)
    ensures GenerationsSound(Apply(s, step))
  {
    hide SessionsSound, NotAhead, DeletedOlder;
    NotAheadKept(s, step);
    DeletedOlderKept(s, step);
  }

  lemma NotAheadKept(s: System, step: Step)
    requires NotAhead(s) && Enabled(s, step)
    ensures NotAhead(Apply(s, step))
  {
  }

  lemma DeletedOlderKept(s: System, step: Step)
    requires SessionsSound(s) && NotAhead(s) && DeletedOlder(s) && Enabled(s, step)
    ensures DeletedOlder(Apply(s, step))
  {
    hide Register, Unregister, Shut, Of;
  }

  lemma ListedKept(s: System, step: Step)
    requires GenerationsSound(s) && Listed(s) && Accounted(s) && IdsDistinct(s) && Enabled(s, step)
    ensures Listed(Apply(s, step)) && IdsDistinct(Apply(s, step))
  {
    hide Taken, InRegistry;
    forall u, id: nat ensures EntrySound(Apply(s, step), u, id) {
      assert EntrySound(s, u, id);
      EntryKept(s, step, u, id);
    }
  }

  lemma EntryKept(s: System, step: Step, u: User, id: nat)
    requires EntrySound(s, u, id) && Enabled(s, step)
    requires step.Join? ==> s.setups[step.x].generation <= Generation(s.registry, s.setups[step.x].user)
    ensures EntrySound(Apply(s, step), u, id)
  {
  }

  lemma TakenStays(s: System, step: Step, x: Handle)
    requires Enabled(s, step) && Taken(s, x)
    ensures Taken(Apply(s, step), x)
  {
    var s1 := Apply(s, step);
    if x !in s.closed {
      var c :| c in s.pending && x in s.pending[c];
      assert c in s1.pending && (x in s1.pending[c] || x in s1.closed);
    }
  }

  /** What leaves the registry without its handler's doing is taken to be closed. */
  lemma EntryStaysOrTaken(s: System, step: Step, x: Handle)
    requires Listed(s) && IdsDistinct(s) && Enabled(s, step)
    requires x in s.setups && s.setups[x].phase.Registered? && InRegistry(s, x, s.setups[x].phase.id)
    requires step != Leave(x)
    ensures InRegistry(Apply(s, step), x, s.setups[x].phase.id) || Taken(Apply(s, step), x)
  {
    var s1 := Apply(s, step);
    var u, id := s.setups[x].user, s.setups[x].phase.id;
    assert EntrySound(s, u, id);
    if step.RevokeUser? && s.logouts[step.l].user == u {
      assert x in s1.pending[step.l];
    } else if step.ShutDown? {
      assert x in s1.pending[step.c];
    } else if step.Join? {
      assert id != s.registry.next + 1;
    }
  }

  lemma AccountedKept(s: System, step: Step)
    requires Listed(s) && Accounted(s) && IdsDistinct(s) && Enabled(s, step)
    ensures Accounted(Apply(s, step))
  {
    hide Taken;
    var s1 := Apply(s, step);
    forall x | x in s1.setups && s1.setups[x].phase.Registered?
      ensures s1.setups[x].phase.id <= s1.registry.next && (InRegistry(s1, x, s1.setups[x].phase.id) || Taken(s1, x))
    {
      if x in s.setups && s.setups[x].phase.Registered? {
        if Taken(s, x) {
          TakenStays(s, step, x);
        } else {
          EntryStaysOrTaken(s, step, x);
        }
      }
    }
  }

  lemma LiveChanges(s: System, step: Step)
    requires Enabled(s, step)
    ensures var s1 := Apply(s, step);
            if step.Leave? then step.x in Live(s) && Live(s1) == Live(s) - {step.x}
            else if step.Join? && s1.setups[step.x].phase.Registered? then step.x !in Live(s) && Live(s1) == Live(s) + {step.x}
            else Live(s1) == Live(s)
  {
    hide Register, Unregister, Revoke, Shut, Admits;
  }

  lemma CountKept(s: System, step: Step)
    requires Counted(s) && Enabled(s, step)
    ensures Counted(Apply(s, step))
  {
    hide Limited, Live, Admits;
    LimitKept(s, step);
    LiveChanges(s, step);
  }

  lemma LimitKept(s: System, step: Step)
    requires Limited(s.registry) && Enabled(s, step)
    ensures Limited(Apply(s, step).registry)
  {
    match step
    case Join(x, deadline, now) =>
      RegisterLimited(s.registry, Ticket(true, s.setups[x].user, s.setups[x].generation, deadline), x, now);
    case Leave(x) => UnregisterLimited(s.registry, s.setups[x].user, s.setups[x].phase.id);
    case _ =>
  }

  lemma RegisterLimited(r: Registry, t: Ticket, x: Handle, now: int)
    requires Limited(r)
    ensures Admits(r, t, now) ==> Limited(Register(r, t, x))
  {
    var mine := Of(r, t.user);
    assert mine[r.next + 1 := x].Keys == mine.Keys + {r.next + 1};
    assert |mine[r.next + 1 := x].Keys| <= |mine.Keys| + 1;
  }

  lemma UnregisterLimited(r: Registry, u: User, id: nat)
    requires Limited(r)
    ensures Limited(Unregister(r, u, id))
  {
    var mine := Of(r, u);
    SmallerSet((mine - {id}).Keys, mine.Keys);
    assert |mine - {id}| <= |mine|;
  }

  lemma {:induction false} SmallerSet(a: set<nat>, b: set<nat>)
    requires a <= b
    ensures |a| <= |b|
  {
    assert b == a + (b - a);
  }

  lemma StepKeeps(s: System, step: Step)
    requires Inv(s) && Enabled(s, step)
    ensures Inv(Apply(s, step))
  {
    hide SessionsSound, GenerationsSound, Listed, Accounted, IdsDistinct, Counted, Apply, Enabled;
    SessionsKept(s, step);
    GenerationsKept(s, step);
    ListedKept(s, step);
    AccountedKept(s, step);
    CountKept(s, step);
  }

  ghost predicate Runs(s: System, steps: seq<Step>)
    decreases |steps|
  {
    steps == [] || (Enabled(s, steps[0]) && Runs(Apply(s, steps[0]), steps[1..]))
  }

  ghost function Exec(s: System, steps: seq<Step>): System
    requires Runs(s, steps)
    decreases |steps|
  {
    if steps == [] then s else Exec(Apply(s, steps[0]), steps[1..])
  }

  lemma {:induction false} RunKeeps(s: System, steps: seq<Step>)
    requires Inv(s) && Runs(s, steps)
    ensures Inv(Exec(s, steps))
    decreases |steps|
  {
    hide Inv, Enabled, Apply;
    if steps != [] {
      StepKeeps(s, steps[0]);
      RunKeeps(Apply(s, steps[0]), steps[1..]);
    }
  }

  /**
   Once logout has deleted a session and revoked, a connection authorized from that
   session can no longer register, was refused, has ended, or has had its close
   function taken; and when no closer is still at work, that function was called.
   */
  lemma NoThirdOutcome(limit: int, steps: seq<Step>, l: nat, x: Handle)
    requires Runs(Start(limit), steps)
    requires var s := Exec(Start(limit), steps);
             && l in s.logouts && s.logouts[l].revoked.Some?
             && x in s.setups && s.setups[x].session.Some? && s.setups[x].session.value in s.logouts[l].deleted
    ensures var s := Exec(Start(limit), steps);
            match s.setups[x].phase {
              case Captured => false
              case Ticketed =>
                forall deadline, now ::
                  !Admits(s.registry, Ticket(true, s.setups[x].user, s.setups[x].generation, deadline), now)
              case Registered(_) =>
                Taken(s, x) && ((forall c :: c in s.pending ==> s.pending[c] == {}) ==> x in s.closed)
              case Refused => true
              case Ended => true
            }
  {
    StartIsSound(limit);
    RunKeeps(Start(limit), steps);
    ValidatedIsPastCapture(Start(limit), steps);
    var s := Exec(Start(limit), steps);
    if s.setups[x].phase.Registered? {
      assert EntrySound(s, s.setups[x].user, s.setups[x].phase.id);
    }
  }

  lemma StartIsSound(limit: int)
    ensures Inv(Start(limit))
  {
    assert Live(Start(limit)) == {};
  }

  ghost predicate CapturedIsBlank(s: System) {
    forall x :: x in s.setups && s.setups[x].phase.Captured? ==> s.setups[x].session.None?
  }

  lemma {:induction false} ValidatedIsPastCapture(s: System, steps: seq<Step>)
    requires Runs(s, steps) && CapturedIsBlank(s)
    ensures CapturedIsBlank(Exec(s, steps))
    decreases |steps|
  {
    if steps != [] {
      ValidatedIsPastCapture(Apply(s, steps[0]), steps[1..]);
    }
  }

  /** The count that shutdown waits for is the number of connections whose handlers have not left. */
  lemma ActiveIsExact(limit: int, steps: seq<Step>)
    requires Runs(Start(limit), steps)
    ensures var s := Exec(Start(limit), steps);
            && s.registry.active == |Live(s)|
            && (limit > 0 ==> forall u :: u in s.registry.users ==> |s.registry.users[u]| <= limit)
  {
    StartIsSound(limit);
    RunKeeps(Start(limit), steps);
    LimitIsFixed(Start(limit), steps);
  }

  lemma {:induction false} LimitIsFixed(s: System, steps: seq<Step>)
    requires Runs(s, steps)
    ensures Exec(s, steps).registry.limit == s.registry.limit
    decreases |steps|
  {
    if steps != [] {
      LimitIsFixed(Apply(s, steps[0]), steps[1..]);
    }
  }
}
