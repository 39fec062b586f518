/**
 Which setups succeed: a validation is decided by what has happened to the session since
 its login, a registration by what has happened to the user since the capture.
 */
module SessionAdmission {
  import opened SessionRegistry
  import opened SessionRevocation

  // What happened in a run.

  predicate Ends(s: System, step: Step, id: SessionId) {
    || step == Drop(id)
    || (step.DeleteSessions? && id !in step.failed && id in s.store && s.store[id] == step.u)
  }

  /** Some step removes the session. */
  ghost predicate SessionEnds(s: System, steps: seq<Step>, id: SessionId)
    requires Runs(s, steps)
    decreases |steps|
  {
    steps != [] && (Ends(s, steps[0], id) || SessionEnds(Apply(s, steps[0]), steps[1..], id))
  }

  /** Some logout of the user revokes. */
  ghost predicate Revokes(s: System, steps: seq<Step>, u: User)
    requires Runs(s, steps)
    decreases |steps|
  {
    steps != [] &&
    ((steps[0].RevokeUser? && s.logouts[steps[0].l].user == u) || Revokes(Apply(s, steps[0]), steps[1..], u))
  }

  predicate ShutsDown(steps: seq<Step>)
    decreases |steps|
  {
    steps != [] && (steps[0].ShutDown? || ShutsDown(steps[1..]))
  }

  /** The user's registered connections that nobody has set out to close. */
  ghost function Open(s: System, u: User): set<Handle> {
    set x | x in s.setups && s.setups[x].user == u && s.setups[x].phase.Registered? && !Taken(s, x)
  }

  // Sessions.

  lemma {:induction false} SessionStays(s: System, steps: seq<Step>, id: SessionId)
    requires Runs(s, steps) && id in s.used
    ensures var s1 := Exec(s, steps);
            && (id in s1.store <==> id in s.store && !SessionEnds(s, steps, id))
            && (id in s1.store ==> s1.store[id] == s.store[id])
    decreases |steps|
  {
    if steps != [] {
      StoreStep(s, steps[0], id);
      hide Apply, Enabled, Ends;
      SessionStays(Apply(s, steps[0]), steps[1..], id);
      if id !in s.store {
        Gone(Apply(s, steps[0]), steps[1..], id);
      }
    }
  }

  lemma StoreStep(s: System, step: Step, id: SessionId)
    requires Enabled(s, step) && id in s.used
    ensures var s1 := Apply(s, step);
            && id in s1.used
            && (id in s1.store <==> id in s.store && !Ends(s, step, id))
            && (id in s1.store ==> s1.store[id] == s.store[id])
  {
  }

  lemma {:induction false} Gone(s: System, steps: seq<Step>, id: SessionId)
    requires Runs(s, steps) && id in s.used && id !in s.store
    ensures id !in Exec(s, steps).store
    decreases |steps|
  {
    if steps != [] {
      StoreStep(s, steps[0], id);
      hide Apply, Enabled;
      Gone(Apply(s, steps[0]), steps[1..], id);
    }
  }

  /**
   A setup is issued its ticket exactly when the store answers and the session its user
   logged in with has not been removed since.
   */
  lemma ValidatesExactly(s: System, id: SessionId, u: User, steps: seq<Step>, x: Handle, storeFails: bool)
    requires Enabled(s, Login(id, u)) && Runs(Apply(s, Login(id, u)), steps)
    requires Enabled(Exec(Apply(s, Login(id, u)), steps), Validate(x, id, storeFails))
    ensures var s1 := Exec(Apply(s, Login(id, u)), steps);
            Apply(s1, Validate(x, id, storeFails)).setups[x].phase.Ticketed? <==>
              !storeFails && s1.setups[x].user == u && !SessionEnds(Apply(s, Login(id, u)), steps, id)
  {
    SessionStays(Apply(s, Login(id, u)), steps, id);
  }

  // Generations, shutdown and what the setup captured.

  lemma {:induction false} GenerationMoves(s: System, steps: seq<Step>, u: User)
    requires Runs(s, steps)
    ensures var g, g1 := Generation(s.registry, u), Generation(Exec(s, steps).registry, u);
            g <= g1 && (g == g1 <==> !Revokes(s, steps, u))
    decreases |steps|
  {
    if steps != [] {
      GenerationStep(s, steps[0], u);
      hide Apply, Enabled, Generation;
      GenerationMoves(Apply(s, steps[0]), steps[1..], u);
    }
  }

  lemma GenerationStep(s: System, step: Step, u: User)
    requires Enabled(s, step)
    ensures Generation(Apply(s, step).registry, u)
            == Generation(s.registry, u) + if step.RevokeUser? && s.logouts[step.l].user == u then 1 else 0
  {
  }

  lemma {:induction false} ClosingExactly(s: System, steps: seq<Step>)
    requires Runs(s, steps)
    ensures Exec(s, steps).registry.closing <==> s.registry.closing || ShutsDown(steps)
    decreases |steps|
  {
    if steps != [] {
      ClosingStep(s, steps[0]);
      hide Apply, Enabled;
      ClosingExactly(Apply(s, steps[0]), steps[1..]);
    }
  }

  lemma ClosingStep(s: System, step: Step)
    requires Enabled(s, step)
    ensures Apply(s, step).registry.closing <==> s.registry.closing || step.ShutDown?
  {
  }

  lemma {:induction false} CaptureStays(s: System, steps: seq<Step>, x: Handle)
    requires Runs(s, steps) && x in s.setups
    ensures var s1 := Exec(s, steps);
            x in s1.setups && s1.setups[x].user == s.setups[x].user && s1.setups[x].generation == s.setups[x].generation
    decreases |steps|
  {
    if steps != [] {
      CaptureStep(s, steps[0], x);
      hide Apply, Enabled;
      CaptureStays(Apply(s, steps[0]), steps[1..], x);
    }
  }

  lemma CaptureStep(s: System, step: Step, x: Handle)
    requires Enabled(s, step) && x in s.setups
    ensures var s1 := Apply(s, step);
            x in s1.setups && s1.setups[x].user == s.setups[x].user && s1.setups[x].generation == s.setups[x].generation
  {
  }

  // The registry lists the open connections.

  /** Only a setup that registered is taken, and what is taken is no longer listed. */
  ghost predicate TakenGone(s: System) {
    forall x :: Taken(s, x) ==> TakenWell(s, x)
  }

  ghost predicate TakenWell(s: System, x: Handle) {
    && x in s.setups && (s.setups[x].phase.Registered? || s.setups[x].phase.Ended?)
    && !exists id :: InRegistry(s, x, id)
  }

  lemma TakenBefore(s: System, step: Step, x: Handle)
    requires Enabled(s, step) && Taken(Apply(s, step), x) && !Taken(s, x)
    ensures step.RevokeUser? || step.ShutDown?
    ensures exists u, id :: u in s.registry.users && id in s.registry.users[u] && s.registry.users[u][id] == x
                            && (step.RevokeUser? ==> u == s.logouts[step.l].user)
  {
    hide Register, Unregister, Shut, Revoke, Admits;
    var s1 := Apply(s, step);
    if x in s1.closed {
      assert false;
    }
    var c :| c in s1.pending && x in s1.pending[c];
    if step.RevokeUser? {
      assert x in Of(s.registry, s.logouts[step.l].user).Values;
    } else if step.ShutDown? {
      assert x in AllHandles(s.registry);
    }
  }

  lemma TakenWellKept(s: System, step: Step, x: Handle)
    requires Enabled(s, step) && TakenWell(s, x)
    ensures TakenWell(Apply(s, step), x)
  {
    var s1 := Apply(s, step);
    forall id ensures !InRegistry(s1, x, id) {
      assert !InRegistry(s, x, id);
    }
  }

  lemma TakenNow(s: System, step: Step, x: Handle)
    requires Inv(s) && Enabled(s, step) && Taken(Apply(s, step), x) && !Taken(s, x)
    ensures TakenWell(Apply(s, step), x)
  {
    TakenBefore(s, step, x);
    var u, id :| u in s.registry.users && id in s.registry.users[u] && s.registry.users[u][id] == x
                 && (step.RevokeUser? ==> u == s.logouts[step.l].user);
    assert EntrySound(s, u, id);
  }

  lemma TakenGoneKept(s: System, step: Step)
    requires Inv(s) && TakenGone(s) && Enabled(s, step)
    ensures TakenGone(Apply(s, step))
  {
    hide Inv, Apply, Enabled, Taken, TakenWell;
    forall x | Taken(Apply(s, step), x) ensures TakenWell(Apply(s, step), x) {
      if Taken(s, x) {
        TakenWellKept(s, step, x);
      } else {
        TakenNow(s, step, x);
      }
    }
  }

  lemma {:induction false} RunTakenGone(s: System, steps: seq<Step>)
    requires Inv(s) && TakenGone(s) && Runs(s, steps)
    ensures Inv(Exec(s, steps)) && TakenGone(Exec(s, steps))
    decreases |steps|
  {
    hide Inv, TakenGone, Enabled, Apply;
    if steps != [] {
      StepKeeps(s, steps[0]);
      TakenGoneKept(s, steps[0]);
      RunTakenGone(Apply(s, steps[0]), steps[1..]);
    }
  }

  lemma {:induction false} ValuesCount(m: map<nat, Handle>)
    requires forall i, j :: i in m && j in m && m[i] == m[j] ==> i == j
    ensures |m.Values| == |m|
    decreases |m|
  {
    if m == map[] {
      assert m.Values == {};
    } else {
      var k :| k in m;
      var rest := m - {k};
      forall h ensures h in rest.Values <==> h in m.Values - {m[k]} {
        if h in m.Values - {m[k]} {
          var i :| i in m && m[i] == h;
          assert i in rest && rest[i] == h;
        }
      }
      assert rest.Values == m.Values - {m[k]};
      assert m.Keys == rest.Keys + {k};
      ValuesCount(rest);
    }
  }

  lemma OpenIsListed(s: System, u: User)
    requires Inv(s) && TakenGone(s)
    ensures |Open(s, u)| == |Of(s.registry, u)|
  {
    hide SessionsSound, GenerationsSound, IdsDistinct, Counted, Taken;
    var mine := Of(s.registry, u);
    forall i: nat | i in mine ensures mine[i] in s.setups && s.setups[mine[i]].phase == Registered(i) && mine[i] in Open(s, u) {
      assert EntrySound(s, u, i);
      assert InRegistry(s, mine[i], i);
    }
    ValuesCount(mine);
    forall x | x in Open(s, u) ensures x in mine.Values {
      assert InRegistry(s, x, s.setups[x].phase.id);
    }
    assert mine.Values == Open(s, u);
  }

  lemma StartTakenGone(limit: int)
    ensures TakenGone(Start(limit))
  {
  }

  lemma JoinStep(s: System, x: Handle, deadline: int, now: int)
    requires Enabled(s, Join(x, deadline, now))
    ensures var u, r := s.setups[x].user, s.registry;
            Apply(s, Join(x, deadline, now)).setups[x].phase.Registered? <==>
              && !r.closing && Generation(r, u) == s.setups[x].generation && now < deadline
              && (r.limit > 0 ==> |Of(r, u)| < r.limit)
  {
  }

  lemma CaptureTakes(s: System, x: Handle, u: User)
    requires Enabled(s, Capture(x, u))
    ensures var s1 := Apply(s, Capture(x, u));
            s1.registry == s.registry && x in s1.setups && s1.setups[x].user == u && s1.setups[x].generation == Generation(s.registry, u)
  {
  }

  /**
   In every run, a setup that captured the user's generation registers exactly when the
   registry has not been shut down, the user has not been revoked since the capture, the
   session has not expired, and the user has fewer open connections than the limit, if
   there is one.
   */
  lemma JoinsExactly(limit: int, before: seq<Step>, x: Handle, u: User, after: seq<Step>, deadline: int, now: int)
    requires Runs(Start(limit), before) && Enabled(Exec(Start(limit), before), Capture(x, u))
    requires Runs(Apply(Exec(Start(limit), before), Capture(x, u)), after)
    requires Enabled(Exec(Apply(Exec(Start(limit), before), Capture(x, u)), after), Join(x, deadline, now))
    ensures var captured := Apply(Exec(Start(limit), before), Capture(x, u));
            var s := Exec(captured, after);
            Apply(s, Join(x, deadline, now)).setups[x].phase.Registered? <==>
              && !ShutsDown(before) && !ShutsDown(after) && !Revokes(captured, after, u)
              && now < deadline && (limit > 0 ==> |Open(s, u)| < limit)
  {
    hide Inv, TakenGone, Open, Revokes, ShutsDown, Runs, Exec, Apply, Enabled, Of, Generation;
    var s0 := Exec(Start(limit), before);
    var captured := Apply(s0, Capture(x, u));
    CaptureTakes(s0, x, u);
    ClosingExactly(Start(limit), before);
    ClosingExactly(captured, after);
    GenerationMoves(captured, after, u);
    CaptureStays(captured, after, x);
    LimitIsFixed(Start(limit), before);
    LimitIsFixed(captured, after);
    StartIsSound(limit);
    StartTakenGone(limit);
    RunTakenGone(Start(limit), before);
    StepKeeps(s0, Capture(x, u));
    TakenGoneKept(s0, Capture(x, u));
    RunTakenGone(captured, after);
    OpenIsListed(Exec(captured, after), u);
    JoinStep(Exec(captured, after), x, deadline, now);
  }
}
