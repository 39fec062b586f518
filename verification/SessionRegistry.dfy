/**
 The registry of live connections: revocation generations, the per-user limit, the
 count that shutdown waits for. Close functions are named by handles.
 */
module SessionRegistry {
  import opened Framing

  type User = nat

  type Handle = nat

  /** Permission carried through connection setup; `ours` is false for the zero value. */
  datatype Ticket = Ticket(ours: bool, user: User, generation: nat, deadline: int)

  datatype Registry = Registry(
    generations: map<User, nat>,
    next: nat,
    users: map<User, map<nat, Handle>>,
    closing: bool,
    active: int,
    limit: int)

  function Generation(r: Registry, u: User): nat {
    if u in r.generations then r.generations[u] else 0
  }

  function Of(r: Registry, u: User): map<nat, Handle> {
    if u in r.users then r.users[u] else map[]
  }

  predicate Admits(r: Registry, t: Ticket, now: int) {
    && t.ours && !r.closing && Generation(r, t.user) == t.generation && now < t.deadline
    && (r.limit > 0 ==> |Of(r, t.user)| < r.limit)
  }

  function Register(r: Registry, t: Ticket, h: Handle): Registry {
    var id := r.next + 1;
    r.(next := id, active := r.active + 1, users := r.users[t.user := Of(r, t.user)[id := h]])
  }

  function Unregister(r: Registry, u: User, id: nat): Registry {
    var left := Of(r, u) - {id};
    r.(users := if left == map[] then r.users - {u} else r.users[u := left], active := r.active - 1)
  }

  /** Invalidate what was authorized so far and drop the user's connections. */
  function Revoke(r: Registry, u: User): Registry {
    r.(generations := r.generations[u := Generation(r, u) + 1], users := r.users - {u})
  }

  function Shut(r: Registry): Registry {
    r.(closing := true, users := map[])
  }

  function AllHandles(r: Registry): set<Handle> {
    set u, id | u in r.users && id in r.users[u] :: r.users[u][id]
  }

  class Manager {
    var generations: map<User, nat>
    var next: nat
    var users: map<User, map<nat, Handle>>
    var closing: bool
    var active: int
    var drained: bool
    var limit: int

    function State(): Registry
      reads this
    {
      Registry(generations, next, users, closing, active, limit)
    }

    constructor (limit: int)
      ensures State() == Registry(map[], 0, map[], false, 0, limit) && drained
    {
      generations, next, users, closing, active, drained, this.limit := map[], 0, map[], false, 0, true, limit;
    }

    method Authorize(user: User, deadline: int) returns (t: Ticket)
      ensures t == Ticket(true, user, Generation(State(), user), deadline)
    {
      t := Ticket(true, user, if user in generations then generations[user] else 0, deadline);
    }

    /** The drain signal is up exactly while no connection is registered. */
    method RegisterUserConnection(t: Ticket, h: Handle, now: int) returns (id: Option<nat>)
      modifies this
      ensures id.Some? <==> Admits(old(State()), t, now)
      ensures id.Some? ==> State() == Register(old(State()), t, h) && id.value == old(next) + 1
      ensures id.None? ==> State() == old(State())
      ensures old(drained <==> active == 0) && old(active) >= 0 ==> (drained <==> active == 0)
    {
      if !t.ours {
        return None;
      }
      var generation := if t.user in generations then generations[t.user] else 0;
      if closing || generation != t.generation || !(now < t.deadline) {
        return None;
      }
      var mine := if t.user in users then users[t.user] else map[];
      if limit > 0 && |mine| >= limit {
        return None;
      }
      next := next + 1;
      if active == 0 {
        drained := false;
      }
      active := active + 1;
      users := users[t.user := mine[next := h]];
      id := Some(next);
    }

    method UnregisterConnection(user: User, id: nat)
      modifies this
      ensures State() == Unregister(old(State()), user, id)
      ensures old(drained <==> active == 0) && old(active) > 0 ==> (drained <==> active == 0)
    {
      var left := (if user in users then users[user] else map[]) - {id};
      if left == map[] {
        users := users - {user};
      } else {
        users := users[user := left];
      }
      active := active - 1;
      if active == 0 {
        drained := true;
      }
    }

    /** Returns every close function of the user, each registration's exactly once. */
    method CloseUserConnections(user: User) returns (closers: seq<Handle>)
      modifies this
      ensures State() == Revoke(old(State()), user) && drained == old(drained)
      ensures |closers| == |Of(old(State()), user)|
      ensures forall h :: h in closers <==> h in Of(old(State()), user).Values
    {
      generations := generations[user := (if user in generations then generations[user] else 0) + 1];
      closers := Handles(if user in users then users[user] else map[]);
      users := users - {user};
    }

    static method Handles(connections: map<nat, Handle>) returns (closers: seq<Handle>)
      ensures |closers| == |connections|
      ensures forall h :: h in closers <==> h in connections.Values
    {
      closers := [];
      var todo := connections.Keys;
      while todo != {}
        invariant todo <= connections.Keys && |closers| + |todo| == |connections|
        invariant forall h :: h in closers ==> h in connections.Values
        invariant forall id :: id in connections && id !in todo ==> connections[id] in closers
        decreases |todo|
      {
        var id :| id in todo;
        assert connections[id] in connections.Values;
        closers := closers + [connections[id]];
        todo := todo - {id};
      }
    }

    /** Refuses every later registration and returns every close function. */
    method CloseAllConnections() returns (closers: seq<Handle>)
      modifies this
      ensures State() == Shut(old(State())) && drained == old(drained)
      ensures forall h :: h in closers <==> h in AllHandles(old(State()))
    {
      closing := true;
      closers := [];
      var todo := users.Keys;
      while todo != {}
        invariant todo <= users.Keys && closing && users == old(users)
        invariant State() == old(State()).(closing := true) && drained == old(drained)
        invariant forall h :: h in closers ==> h in AllHandles(old(State()))
        invariant forall u, id :: u in users && u !in todo && id in users[u] ==> users[u][id] in closers
        decreases |todo|
      {
        var u :| u in todo;
        var more := Handles(users[u]);
        forall h | h in more ensures h in AllHandles(old(State())) {
          var id :| id in users[u] && users[u][id] == h;
          assert u in old(State()).users && id in old(State()).users[u];
        }
        closers := closers + more;
        todo := todo - {u};
      }
      users := map[];
    }
  }
}
