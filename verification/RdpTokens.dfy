/**
 Single-use RDP tokens: a grant stored in the browser session plus an in-memory
 index from token to issuing session. The store may fail, lose or restore anything;
 the index decides. Tokens are named by their verifiers and are fresh when issued.
 */
module RdpTokens {
  import opened Framing

  type Verifier = nat
  type SessionId = nat
  type Vm = nat
  type Ip = nat

  const CONNECT_WINDOW: int := 120

  datatype Account = Account(name: nat, admin: bool)

  datatype Grant = Grant(verifier: Verifier, expires: int)

  datatype Session = Session(
    account: Option<Account>,
    ip: Ip,
    createdAt: int,
    deadline: int,
    grants: map<Vm, Grant>)

  datatype Ref = Ref(session: SessionId, vm: Vm, account: Account, ip: Ip, createdAt: int, expires: int)

  datatype Tokens = Tokens(store: map<SessionId, Session>, index: map<Verifier, Ref>)

  /** Address 0 stands for one that does not parse. */
  predicate ValidIp(ip: Ip) {
    ip != 0
  }

  /** The two clock readings of a lookup, and whether the store answered. */
  datatype Lookup = Lookup(first: int, second: int, found: bool)

  /** `Unsure`: written although the store reported an error. */
  datatype Commit = Committed | Unsure | Lost

  function MinInt(a: int, b: int): int {
    if a < b then a else b
  }

  predicate SameSession(s: Session, account: Account, ip: Ip, createdAt: int) {
    s.account == Some(account) && s.ip == ip && s.createdAt == createdAt
  }

  function WithoutSession(index: map<Verifier, Ref>, id: SessionId): map<Verifier, Ref> {
    map v | v in index && index[v].session != id :: index[v]
  }

  function WithoutStale(index: map<Verifier, Ref>, id: SessionId, vm: Vm, now: int): map<Verifier, Ref> {
    map v | v in index && now < index[v].expires && !(index[v].session == id && index[v].vm == vm) :: index[v]
  }

  function Unexpired(grants: map<Vm, Grant>, now: int): map<Vm, Grant> {
    map vm | vm in grants && now < grants[vm].expires :: grants[vm]
  }

  /** Whether a session may issue a token to the caller whose request it belongs to. */
  predicate MayIssue(t: Tokens, id: SessionId, caller: Session, now: int, v: Verifier) {
    && id in t.store && now < t.store[id].deadline
    && caller.account.Some? && SameSession(t.store[id], caller.account.value, caller.ip, caller.createdAt)
    && ValidIp(t.store[id].ip) && v !in t.index
  }

  function Expiry(s: Session, now: int): int {
    MinInt(now + CONNECT_WINDOW, s.deadline)
  }

  function Granting(s: Session, vm: Vm, v: Verifier, now: int): Session {
    s.(grants := Unexpired(s.grants, now)[vm := Grant(v, Expiry(s, now))])
  }

  function Issued(t: Tokens, id: SessionId, vm: Vm, v: Verifier, now: int): Tokens
    requires id in t.store && t.store[id].account.Some?
  {
    var s := t.store[id];
    Tokens(
      t.store[id := Granting(s, vm, v, now)],
      WithoutStale(t.index, id, vm, now)
      [v := Ref(id, vm, s.account.value, s.ip, s.createdAt, Expiry(s, now))])
  }

  /** A token's index entry passes every check against the store. */
  predicate Loads(t: Tokens, v: Verifier, ip: Ip, io: Lookup) {
    v in t.index &&
    var ref := t.index[v];
    && io.first < ref.expires && ref.ip == ip && io.found && ref.session in t.store
    && var s := t.store[ref.session];
       && io.second < s.deadline && io.second < ref.expires
       && SameSession(s, ref.account, ip, ref.createdAt)
       && ref.vm in s.grants && io.second < s.grants[ref.vm].expires && s.grants[ref.vm].verifier == v
  }

  /** What a lookup that fails forgets. */
  function AfterFailedLoad(t: Tokens, v: Verifier, ip: Ip, io: Lookup): map<Verifier, Ref> {
    if v !in t.index then t.index
    else
      var ref := t.index[v];
      if io.first >= ref.expires then t.index - {v}
      else if ref.ip != ip || !io.found then t.index
      else if ref.session !in t.store then WithoutSession(t.index, ref.session)
      else
        var s := t.store[ref.session];
        if io.second >= s.deadline then WithoutSession(t.index, ref.session)
        else if io.second >= ref.expires then t.index - {v}
        else if !SameSession(s, ref.account, ip, ref.createdAt) then WithoutSession(t.index, ref.session)
        else t.index - {v}
  }

  predicate Authorizes(t: Tokens, v: Verifier, name: nat, ip: Ip, vm: Vm, io: Lookup) {
    Loads(t, v, ip, io) && t.index[v].account.name == name && t.index[v].vm == vm
  }

  function Consumed(t: Tokens, v: Verifier): map<SessionId, Session>
    requires v in t.index && t.index[v].session in t.store
  {
    var ref := t.index[v];
    t.store[ref.session := t.store[ref.session].(grants := t.store[ref.session].grants - {ref.vm})]
  }

  // Runs.

  datatype Issue = Issue(session: SessionId, vm: Vm, account: Account, ip: Ip, at: int, expires: int)

  datatype System = System(tokens: Tokens, issued: map<Verifier, Issue>, spent: set<Verifier>)

  const EMPTY := System(Tokens(map[], map[]), map[], {})

  /** `Overwrite` and `Forget` are any write the HTTP session layer may make, stale ones included. */
  datatype Step =
    | GrantToken(id: SessionId, caller: Session, vm: Vm, v: Verifier, now: int, commit: Commit)
    | Target(v: Verifier, ip: Ip, io: Lookup)
    | Authorize(v: Verifier, name: nat, ip: Ip, vm: Vm, io: Lookup, commit: Commit)
    | Overwrite(id: SessionId, s: Session)
    | Forget(id: SessionId)
    | Revoke(id: SessionId)
    | Restart

  /** The only thing asked of the environment: a token is random, hence never issued before. */
  predicate Enabled(s: System, step: Step) {
    step.GrantToken? ==> step.v !in s.issued
  }

  predicate Succeeds(s: System, step: Step) {
    step.Authorize? && Authorizes(s.tokens, step.v, step.name, step.ip, step.vm, step.io) && step.commit.Committed?
  }

  function Apply(s: System, step: Step): System
    requires Enabled(s, step)
  {
    var t := s.tokens;
    match step
    case GrantToken(id, caller, vm, v, now, commit) =>
      if !MayIssue(t, id, caller, now, v) then s
      else
        var t1 := Issued(t, id, vm, v, now);
        var issue := Issue(id, vm, t1.index[v].account, t1.index[v].ip, now, t1.index[v].expires);
        (match commit
         case Committed => s.(tokens := t1, issued := s.issued[v := issue])
         case Unsure => s.(tokens := t.(store := t1.store), issued := s.issued[v := issue])
         case Lost => s.(issued := s.issued[v := issue]))
    case Target(v, ip, io) =>
      if Loads(t, v, ip, io) then s else s.(tokens := t.(index := AfterFailedLoad(t, v, ip, io)))
    case Authorize(v, name, ip, vm, io, commit) =>
      if !Loads(t, v, ip, io) then s.(tokens := t.(index := AfterFailedLoad(t, v, ip, io)))
      else if !Authorizes(t, v, name, ip, vm, io) then s
      else
        (match commit
         case Committed => s.(tokens := Tokens(Consumed(t, v), t.index - {v}), spent := s.spent + {v})
         case Unsure => s.(tokens := t.(store := Consumed(t, v)))
         case Lost => s)
    case Overwrite(id, data) => s.(tokens := t.(store := t.store[id := data]))
    case Forget(id) => s.(tokens := t.(store := t.store - {id}))
    case Revoke(id) => s.(tokens := Tokens(t.store - {id}, WithoutSession(t.index, id)))
    case Restart => s.(tokens := t.(index := map[]))
  }

  ghost predicate Matches(ref: Ref, issue: Issue) {
    && ref.session == issue.session && ref.vm == issue.vm && ref.account == issue.account && ref.ip == issue.ip
    && ref.expires == issue.expires && issue.expires <= issue.at + CONNECT_WINDOW && ValidIp(issue.ip)
  }

  /** The index holds only unspent tokens, as issued, and one per session and VM. */
  ghost predicate Inv(s: System) {
    && (forall v :: v in s.tokens.index ==> v in s.issued && v !in s.spent && Matches(s.tokens.index[v], s.issued[v]))
    && (forall v, w :: v in s.tokens.index && w in s.tokens.index && v != w ==>
          s.tokens.index[v].session != s.tokens.index[w].session || s.tokens.index[v].vm != s.tokens.index[w].vm)
    && s.spent <= s.issued.Keys
  }

  lemma FailedLoadForgets(t: Tokens, v: Verifier, ip: Ip, io: Lookup)
    ensures AfterFailedLoad(t, v, ip, io).Keys <= t.index.Keys
    ensures forall w :: w in AfterFailedLoad(t, v, ip, io) ==> AfterFailedLoad(t, v, ip, io)[w] == t.index[w]
  {
  }

  /** Forgetting index entries and spending forgotten ones keep the invariant. */
  lemma ForgettingKeeps(s: System, index: map<Verifier, Ref>, store: map<SessionId, Session>)
    requires Inv(s) && index.Keys <= s.tokens.index.Keys
    requires forall v :: v in index ==> index[v] == s.tokens.index[v]
    ensures Inv(s.(tokens := Tokens(store, index)))
  {
  }

  /** A fresh token for a session and VM without another keeps the invariant. */
  lemma AddingKeeps(s: System, v: Verifier, ref: Ref, issue: Issue)
    requires Inv(s) && v !in s.issued && Matches(ref, issue)
    requires forall w :: w in s.tokens.index ==> s.tokens.index[w].session != ref.session || s.tokens.index[w].vm != ref.vm
    ensures Inv(s.(tokens := s.tokens.(index := s.tokens.index[v := ref]), issued := s.issued[v := issue]))
  {
  }

  lemma GrantKeeps(s: System, step: Step)
    requires Inv(s) && Enabled(s, step) && step.GrantToken?
    ensures Inv(Apply(s, step))
  {
    hide Inv;
    var t := s.tokens;
    if MayIssue(t, step.id, step.caller, step.now, step.v) {
      var t1 := Issued(t, step.id, step.vm, step.v, step.now);
      var ref := t1.index[step.v];
      var issue := Issue(step.id, step.vm, ref.account, ref.ip, step.now, ref.expires);
      var rest := WithoutStale(t.index, step.id, step.vm, step.now);
      ForgettingKeeps(s, rest, t1.store);
      AddingKeeps(s.(tokens := Tokens(t1.store, rest)), step.v, ref, issue);
      NotingKeeps(s, step.v, issue, t.store);
      NotingKeeps(s, step.v, issue, t1.store);
      assert t.(store := t.store) == t;
    }
  }

  lemma NotingKeeps(s: System, v: Verifier, issue: Issue, store: map<SessionId, Session>)
    requires Inv(s) && v !in s.issued
    ensures Inv(s.(tokens := s.tokens.(store := store), issued := s.issued[v := issue]))
  {
  }

  lemma StepKeeps(s: System, step: Step)
    requires Inv(s) && Enabled(s, step)
    ensures Inv(Apply(s, step))
  {
    hide AfterFailedLoad;
    var t := s.tokens;
    match step
    case GrantToken(_, _, _, _, _, _) =>
      hide Inv;
      GrantKeeps(s, step);
    case Target(v, ip, io) =>
      FailedLoadForgets(t, v, ip, io);
      ForgettingKeeps(s, AfterFailedLoad(t, v, ip, io), t.store);
    case Authorize(v, name, ip, vm, io, commit) =>
      FailedLoadForgets(t, v, ip, io);
      ForgettingKeeps(s, AfterFailedLoad(t, v, ip, io), t.store);
    case _ =>
      hide Inv;
      ForgettingKeeps(s, Apply(s, step).tokens.index, Apply(s, step).tokens.store);
  }

  /** A token that has left the index never comes back, and never succeeds. */
  lemma DeadStays(s: System, step: Step, v: Verifier)
    requires Enabled(s, step) && v in s.issued && v !in s.tokens.index
    ensures v in Apply(s, step).issued && v !in Apply(s, step).tokens.index
    ensures Succeeds(s, step) ==> step.v != v
  {
    hide AfterFailedLoad;
    match step
    case Target(w, ip, io) => FailedLoadForgets(s.tokens, w, ip, io);
    case Authorize(w, name, ip, vm, io, commit) => FailedLoadForgets(s.tokens, w, ip, io);
    case _ =>
  }

  ghost predicate Runs(s: System, steps: seq<Step>)
    decreases |steps|
  {
    steps == [] || (Enabled(s, steps[0]) && Runs(Apply(s, steps[0]), steps[1..]))
  }

  ghost function Exec(s: System, steps: seq<Step>): System
    requires Runs(s, steps)
    decreases |steps|
  {
    if steps == [] then s else Exec(Apply(s, steps[0]), steps[1..])
  }

  lemma {:induction false} RunKeeps(s: System, steps: seq<Step>)
    requires Inv(s) && Runs(s, steps)
    ensures Inv(Exec(s, steps))
    decreases |steps|
  {
    hide Inv, Enabled, Apply;
    if steps != [] {
      StepKeeps(s, steps[0]);
      RunKeeps(Apply(s, steps[0]), steps[1..]);
    }
  }

  /** How often the token authorized a connection. */
  ghost function Uses(s: System, steps: seq<Step>, v: Verifier): nat
    requires Runs(s, steps)
    decreases |steps|
  {
    if steps == [] then 0
    else
      (if Succeeds(s, steps[0]) && steps[0].v == v then 1 else 0) + Uses(Apply(s, steps[0]), steps[1..], v)
  }

  lemma {:induction false} DeadIsUnused(s: System, steps: seq<Step>, v: Verifier)
    requires Runs(s, steps) && v in s.issued && v !in s.tokens.index
    ensures Uses(s, steps, v) == 0
    decreases |steps|
  {
    hide Enabled, Apply, Succeeds;
    if steps != [] {
      DeadStays(s, steps[0], v);
      DeadIsUnused(Apply(s, steps[0]), steps[1..], v);
    }
  }

  lemma SuccessSpends(s: System, step: Step)
    requires Inv(s) && Enabled(s, step) && Succeeds(s, step)
    ensures step.v in Apply(s, step).issued && step.v !in Apply(s, step).tokens.index
  {
  }

  /** A token authorizes at most one connection, whatever the store and its writers do. */
  lemma {:induction false} AtMostOnce(s: System, steps: seq<Step>, v: Verifier)
    requires Inv(s) && Runs(s, steps)
    ensures Uses(s, steps, v) <= 1
    decreases |steps|
  {
    hide Inv, Enabled, Apply, Authorizes;
    if steps != [] {
      StepKeeps(s, steps[0]);
      if steps[0].Authorize? && steps[0].v == v && Succeeds(s, steps[0]) {
        SuccessSpends(s, steps[0]);
        DeadIsUnused(Apply(s, steps[0]), steps[1..], v);
      } else {
        AtMostOnce(Apply(s, steps[0]), steps[1..], v);
      }
    }
  }

  /** Success means the issuing user, address and VM, within the window, on a live session that still holds the grant. */
  lemma SuccessMatchesIssue(steps: seq<Step>, step: Step)
    requires Runs(EMPTY, steps) && Enabled(Exec(EMPTY, steps), step) && Succeeds(Exec(EMPTY, steps), step)
    ensures var s := Exec(EMPTY, steps);
            && step.v in s.issued && step.v !in s.spent
            && var issue := s.issued[step.v];
               && issue.account.name == step.name && issue.ip == step.ip && issue.vm == step.vm
               && step.io.second < issue.expires <= issue.at + CONNECT_WINDOW
               && issue.session in s.tokens.store
               && s.tokens.store[issue.session].account == Some(issue.account)
               && step.io.second < s.tokens.store[issue.session].deadline
  {
    RunKeeps(EMPTY, steps);
  }

  /** A grant for the same session and VM, and the session's revocation, end every earlier token. */
  lemma SupersededIsDead(s: System, step: Step, v: Verifier, later: seq<Step>)
    requires Inv(s) && Enabled(s, step) && v in s.tokens.index
    requires var ref := s.tokens.index[v];
             || (step.GrantToken? && step.id == ref.session && step.vm == ref.vm && step.commit.Committed?
                 && MayIssue(s.tokens, step.id, step.caller, step.now, step.v))
             || (step.Revoke? && step.id == ref.session)
             || step.Restart?
    requires Runs(Apply(s, step), later)
    ensures Uses(Apply(s, step), later, v) == 0
  {
    DeadIsUnused(Apply(s, step), later, v);
  }

  // A valid token works.

  /** What a committed grant leaves: the index and the live session agree about the token. */
  ghost predicate Usable(s: System, v: Verifier, ref: Ref) {
    && v in s.tokens.index && s.tokens.index[v] == ref && v !in s.spent && ref.session in s.tokens.store
    && var live := s.tokens.store[ref.session];
       && live.account == Some(ref.account) && live.ip == ref.ip && live.createdAt == ref.createdAt
       && ref.expires <= live.deadline
       && ref.vm in live.grants && live.grants[ref.vm] == Grant(v, ref.expires)
  }

  /**
   A lookup of another token of the session, presented from its address, finds that the
   session has expired or is not the one it was issued to: all its tokens are forgotten.
   */
  predicate EndsSession(s: System, w: Verifier, ip: Ip, io: Lookup, id: SessionId) {
    && w in s.tokens.index && s.tokens.index[w].session == id && id in s.tokens.store
    && var other, live := s.tokens.index[w], s.tokens.store[id];
       && io.first < other.expires && other.ip == ip && io.found
       && (io.second >= live.deadline
           || (io.second < other.expires
               && (live.account != Some(other.account) || live.ip != ip || live.createdAt != other.createdAt)))
  }

  /**
   The step is not about the token: it grants nothing for its session and VM, has no grant
   reading past its expiry, writes, forgets or revokes another session, does not
   restart, and looks up other tokens only.
   */
  predicate LeavesAlone(s: System, step: Step, v: Verifier, ref: Ref) {
    match step
    case GrantToken(id, _, vm, _, now, _) => (id != ref.session || vm != ref.vm) && now < ref.expires
    case Target(w, ip, io) => w != v && !EndsSession(s, w, ip, io, ref.session)
    case Authorize(w, _, ip, _, io, _) => w != v && !EndsSession(s, w, ip, io, ref.session)
    case Overwrite(id, _) => id != ref.session
    case Forget(id) => id != ref.session
    case Revoke(id) => id != ref.session
    case Restart => false
  }

  /** The step grants a token to the session's own live caller, and the store keeps it. */
  predicate Grants(s: System, step: Step, ref: Ref) {
    && step.GrantToken? && step.commit.Committed? && step.id in s.tokens.store
    && var live := s.tokens.store[step.id];
       && step.now < live.deadline && live.ip != 0 && live.account.Some?
       && step.caller.account == live.account && step.caller.ip == live.ip && step.caller.createdAt == live.createdAt
       && ref == Ref(step.id, step.vm, live.account.value, live.ip, live.createdAt,
                     if step.now + 120 < live.deadline then step.now + 120 else live.deadline)
  }

  lemma GrantIsUsable(s: System, step: Step, ref: Ref)
    requires Inv(s) && Enabled(s, step) && Grants(s, step, ref)
    ensures Usable(Apply(s, step), step.v, ref)
  {
  }

  /** Looking up another token leaves this one usable exactly unless it ends the session. */
  lemma OtherLookupKeeps(s: System, w: Verifier, ip: Ip, io: Lookup, v: Verifier, ref: Ref)
    requires Usable(s, v, ref) && w != v
    ensures Usable(Apply(s, Target(w, ip, io)), v, ref) <==> !EndsSession(s, w, ip, io, ref.session)
  {
  }

  lemma AloneIsUsable(s: System, step: Step, v: Verifier, ref: Ref)
    requires Inv(s) && Enabled(s, step) && Usable(s, v, ref) && LeavesAlone(s, step, v, ref)
    ensures Usable(Apply(s, step), v, ref)
  {
    match step
    case Target(w, ip, io) => OtherLookupKeeps(s, w, ip, io, v, ref);
    case Authorize(w, name, ip, vm, io, commit) => OtherLookupKeeps(s, w, ip, io, v, ref);
    case _ =>
  }

  ghost predicate AllLeaveAlone(s: System, steps: seq<Step>, v: Verifier, ref: Ref)
    requires Runs(s, steps)
    decreases |steps|
  {
    steps == [] || (LeavesAlone(s, steps[0], v, ref) && AllLeaveAlone(Apply(s, steps[0]), steps[1..], v, ref))
  }

  lemma {:induction false} StaysUsable(s: System, steps: seq<Step>, v: Verifier, ref: Ref)
    requires Inv(s) && Runs(s, steps) && Usable(s, v, ref) && AllLeaveAlone(s, steps, v, ref)
    ensures Usable(Exec(s, steps), v, ref) && Inv(Exec(s, steps))
    decreases |steps|
  {
    hide Inv, Enabled, Apply, Usable, LeavesAlone;
    if steps != [] {
      StepKeeps(s, steps[0]);
      AloneIsUsable(s, steps[0], v, ref);
      StaysUsable(Apply(s, steps[0]), steps[1..], v, ref);
    }
  }

  /** What the holder presents: the issuing name, address and VM, with readings before expiry and a working store. */
  predicate Presents(step: Step, v: Verifier, ref: Ref) {
    && step.Authorize? && step.v == v && step.name == ref.account.name && step.ip == ref.ip && step.vm == ref.vm
    && step.io.found && step.io.first < ref.expires && step.io.second < ref.expires && step.commit.Committed?
  }

  /**
   A committed token that nothing was about in between authorizes the connection it was
   issued for: it is spent by it, and the session's grant is gone.
   */
  lemma ValidTokenWorks(s: System, grant: Step, ref: Ref, steps: seq<Step>, use: Step)
    requires Inv(s) && Enabled(s, grant) && Grants(s, grant, ref)
    requires Runs(Apply(s, grant), steps) && AllLeaveAlone(Apply(s, grant), steps, grant.v, ref)
    requires Presents(use, grant.v, ref)
    ensures var s1 := Exec(Apply(s, grant), steps);
            && Enabled(s1, use) && grant.v !in s1.spent && grant.v in Apply(s1, use).spent
            && ref.session in Apply(s1, use).tokens.store && ref.vm !in Apply(s1, use).tokens.store[ref.session].grants
  {
    StepKeeps(s, grant);
    GrantIsUsable(s, grant, ref);
    StaysUsable(Apply(s, grant), steps, grant.v, ref);
    UsableWorks(Exec(Apply(s, grant), steps), grant.v, ref, use);
  }

  lemma UsableWorks(s: System, v: Verifier, ref: Ref, use: Step)
    requires Usable(s, v, ref) && Presents(use, v, ref)
    ensures Enabled(s, use) && v !in s.spent && v in Apply(s, use).spent
    ensures ref.session in Apply(s, use).tokens.store && ref.vm !in Apply(s, use).tokens.store[ref.session].grants
  {
  }

  // The manager, under its sessions mutex.

  class Manager {
    var store: map<SessionId, Session>
    var index: map<Verifier, Ref>

    function State(): Tokens
      reads this
    {
      Tokens(store, index)
    }

    constructor ()
      ensures State() == EMPTY.tokens
    {
      store, index := map[], map[];
    }

    method RemoveSessionIndex(id: SessionId)
      modifies this`index
      ensures index == WithoutSession(old(index), id)
    {
      var todo := index.Keys;
      while todo != {}
        invariant todo <= index.Keys <= old(index).Keys
        invariant forall v :: v in old(index) && v !in todo ==> (v in index <==> old(index)[v].session != id)
        invariant forall v :: v in index ==> index[v] == old(index)[v]
        decreases |todo|
      {
        var v :| v in todo;
        if index[v].session == id {
          index := index - {v};
        }
        todo := todo - {v};
      }
    }

    method IndexGrant(id: SessionId, s: Session, vm: Vm, grant: Grant, now: int)
      requires s.account.Some?
      modifies this`index
      ensures index == WithoutStale(old(index), id, vm, now)
                       [grant.verifier := Ref(id, vm, s.account.value, s.ip, s.createdAt, grant.expires)]
    {
      var todo := index.Keys;
      while todo != {}
        invariant todo <= index.Keys <= old(index).Keys
        invariant forall v :: v in old(index) && v !in todo ==> (v in index <==> v in WithoutStale(old(index), id, vm, now))
        invariant forall v :: v in index ==> index[v] == old(index)[v]
        decreases |todo|
      {
        var v :| v in todo;
        var ref := index[v];
        if !(now < ref.expires) || (ref.session == id && ref.vm == vm) {
          index := index - {v};
        }
        todo := todo - {v};
      }
      assert index == WithoutStale(old(index), id, vm, now);
      index := index[grant.verifier := Ref(id, vm, s.account.value, s.ip, s.createdAt, grant.expires)];
    }

    /** Grant a token; the index learns of it only once the store has it. */
    method GrantStored(id: SessionId, caller: Session, vm: Vm, v: Verifier, now: int, found: bool, commit: Commit)
      returns (ok: bool)
      modifies this
      ensures ok <==> found && MayIssue(old(State()), id, caller, now, v) && commit.Committed?
      ensures ok ==> State() == Issued(old(State()), id, vm, v, now)
      ensures !ok ==> index == old(index)
      ensures !ok && (!found || !MayIssue(old(State()), id, caller, now, v) || commit.Lost?) ==> store == old(store)
      ensures !ok && found && MayIssue(old(State()), id, caller, now, v) && commit.Unsure? ==>
                store == Issued(old(State()), id, vm, v, now).store
    {
      if !found || id !in store {
        return false;
      }
      var s := store[id];
      if !(now < s.deadline) || caller.account.None?
        || !SameSession(s, caller.account.value, caller.ip, caller.createdAt) || !ValidIp(s.ip) || v in index {
        return false;
      }
      var expires := now + CONNECT_WINDOW;
      if s.deadline < expires {
        expires := s.deadline;
      }
      s := s.(grants := Unexpired(s.grants, now)[vm := Grant(v, expires)]);
      if !commit.Lost? {
        store := store[id := s];
      }
      if !commit.Committed? {
        return false;
      }
      IndexGrant(id, s, vm, Grant(v, expires), now);
      ok := true;
    }

    method LoadGrant(v: Verifier, ip: Ip, io: Lookup) returns (ref: Option<Ref>)
      modifies this`index
      ensures ref.Some? <==> Loads(old(State()), v, ip, io)
      ensures ref.Some? ==> State() == old(State()) && ref.value == index[v]
      ensures ref.None? ==> index == AfterFailedLoad(old(State()), v, ip, io)
    {
      if v !in index {
        return None;
      }
      var r := index[v];
      if !(io.first < r.expires) {
        index := index - {v};
        return None;
      }
      if r.ip != ip || !io.found {
        return None;
      }
      if r.session !in store {
        RemoveSessionIndex(r.session);
        return None;
      }
      var s := store[r.session];
      if !(io.second < s.deadline) {
        RemoveSessionIndex(r.session);
        return None;
      }
      if !(io.second < r.expires) {
        index := index - {v};
        return None;
      }
      if !SameSession(s, r.account, ip, r.createdAt) {
        RemoveSessionIndex(r.session);
        return None;
      }
      if r.vm !in s.grants || !(io.second < s.grants[r.vm].expires) || s.grants[r.vm].verifier != v {
        index := index - {v};
        return None;
      }
      ref := Some(r);
    }

    /** Revalidate and spend a token in one critical section: the step of the run model. */
    method AuthorizeConnection(v: Verifier, name: nat, ip: Ip, vm: Vm, io: Lookup, commit: Commit)
      returns (ok: bool)
      modifies this
      ensures var s := System(old(State()), map[], {});
              var step := Authorize(v, name, ip, vm, io, commit);
              ok == Succeeds(s, step) && State() == Apply(s, step).tokens
    {
      var ref := LoadGrant(v, ip, io);
      if ref.None? || ref.value.account.name != name || ref.value.vm != vm {
        return false;
      }
      var s := store[ref.value.session];
      if !commit.Lost? {
        store := store[ref.value.session := s.(grants := s.grants - {vm})];
      }
      if !commit.Committed? {
        return false;
      }
      index := index - {v};
      ok := true;
    }
  }
}
