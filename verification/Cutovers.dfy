/** All or nothing: what a run that fails leaves behind, and what one that succeeds has moved. */
module Cutovers {
  import opened Text
  import opened Site
  import opened Protocol
  import opened RouteMoves

  /** The singleton services run on colour `c` and on `c` only. */
  predicate SingletonsOn(running: PerColor<set<string>>, services: set<string>, c: Color) {
    services <= running.At(c) && running.At(Other(c)) !! services
  }

  /** Traffic, singletons and slot agree on colour `c`. */
  predicate Settled(w: World, services: set<string>, c: Color) {
    && DistinctRoutes(w.routes)
    && RoutesAt(w, c)
    && SingletonsOn(w.running, services, c)
    && AtMostOneActive(w.slots)
    && ActiveColor(w.slots) == Some(c)
  }

  /** Routes are applied unless the server has no proxy; then there are none to apply. */
  predicate CanServe(w: World, t: Target) {
    t.proxied || w.routes == []
  }

  // ---- singletons ----

  /** `running` is on its way from `c` to the other colour, having left `base`. */
  predicate InFlight(running: PerColor<set<string>>, base: PerColor<set<string>>, services: set<string>, c: Color) {
    && running.At(c) == base.At(c) - services
    && base.At(Other(c)) <= running.At(Other(c)) <= base.At(Other(c)) + services
  }

  lemma RestoreUndoes(env: Environment, m: Machine, t: Target, base: PerColor<set<string>>, c: Color)
    requires UndoSucceeds(env) && t.blueGreen && t.singletons != {}
    requires SingletonsOn(base, t.singletons, c) && InFlight(m.world.running, base, t.singletons, c)
    ensures Restore(env, m, t, Some(Other(c)), Some(c)).m.world == m.world.(running := base)
  {
    var stop, start := Stop(Other(c), t.singletons, true), Start(c, t.singletons, true);
    assert IsUndo(stop) && IsUndo(start);
    var stopped := Exec(env, m, stop);
    var started := Exec(env, stopped, start);
    assert stopped.world.running.At(Other(c)) == base.At(Other(c));
    assert started.world.running.At(c) == base.At(c);
    assert started.world.running == base;
  }

  lemma SwitchAllOrNothing(env: Environment, m: Machine, t: Target, c: Color)
    requires UndoSucceeds(env) && t.blueGreen
    requires SingletonsOn(m.world.running, t.singletons, c)
    ensures var r := Switch(env, m, t, Some(c), Other(c));
            if !r.ok then r.m.world == m.world
            else
              && r.m.world == m.world.(running := r.m.world.running)
              && InFlight(r.m.world.running, m.world.running, t.singletons, c)
              && SingletonsOn(r.m.world.running, t.singletons, Other(c))
  {
    if t.singletons != {} {
      var base, services := m.world.running, t.singletons;
      var stopped := Do(env, m, Stop(c, services, false));
      if !stopped.ok {
        var start := Start(c, services, true);
        assert IsUndo(start);
        var started := Exec(env, stopped.m, start);
        assert started.world.running.At(c) == base.At(c);
        assert started.world.running == base;
      } else {
        var started := Do(env, stopped.m, Start(Other(c), services, false));
        assert InFlight(started.m.world.running, base, services, c);
        if !started.ok {
          RestoreUndoes(env, started.m, t, base, c);
        } else {
          var checked := Do(env, started.m, Verify(Other(c), services));
          assert InFlight(checked.m.world.running, base, services, c);
          if !(checked.ok && services <= checked.m.world.running.At(Other(c))) {
            RestoreUndoes(env, checked.m, t, base, c);
          }
        }
      }
    }
  }

  lemma RestoreAfterSwitch(env: Environment, m: Machine, t: Target, base: PerColor<set<string>>, c: Color)
    requires UndoSucceeds(env) && t.blueGreen
    requires SingletonsOn(base, t.singletons, c) && InFlight(m.world.running, base, t.singletons, c)
    ensures Restore(env, m, t, Some(Other(c)), Some(c)).m.world == m.world.(running := base)
  {
    if t.singletons != {} {
      RestoreUndoes(env, m, t, base, c);
    } else {
      assert m.world.running.At(c) == base.At(c) && m.world.running.At(Other(c)) == base.At(Other(c));
    }
  }

  // ---- the cutover with a previous colour ----

  lemma ApplyRoutesOutcome(env: Environment, m: Machine, t: Target, c: Color)
    requires Reliable(env) && DistinctRoutes(m.world.routes) && Consistent(m.world.routes, m.world.served)
    requires CanServe(m.world, t)
    ensures var r := ApplyRoutes(env, m, t, Some(c), false);
            if !r.ok then r.m.world == m.world
            else
              && r.m.world == m.world.(routes := r.m.world.routes, served := r.m.world.served)
              && RecordedAt(m.world.routes, r.m.world.routes, Some(c))
              && SameBeyond(r.m.world.served, m.world.served, m.world.routes, |m.world.routes|)
              && DistinctRoutes(r.m.world.routes)
              && RoutesAt(r.m.world, c)
  {
    if t.proxied {
      ApplyRoutesAllOrNothing(env, m, t, Some(c), false);
    }
  }

  lemma ReapplyReturns(env: Environment, m: Machine, t: Target, w: World, c: Color)
    requires Reliable(env) && CanServe(w, t) && DistinctRoutes(w.routes) && RoutesAt(w, c)
    requires m.world == w.(routes := m.world.routes, served := m.world.served)
    requires DistinctRoutes(m.world.routes) && RoutesAt(m.world, Other(c))
    requires RecordedAt(w.routes, m.world.routes, Some(Other(c)))
    requires SameBeyond(m.world.served, w.served, w.routes, |w.routes|)
    ensures ApplyRoutes(env, m, t, Some(c), true).m.world == w
  {
    if t.proxied {
      ApplyRoutesAllOrNothing(env, m, t, Some(c), true);
      var back := ApplyRoutes(env, m, t, Some(c), true);
      forall i | 0 <= i < |w.routes| ensures Upstream(m.world.routes[i], Some(c)).Some? {
        assert Upstream(w.routes[i], Some(c)).Some?;
      }
      assert Prepared(m.world.routes, Some(c));
      MovedBack(w, m.world, back.m.world, c, Other(c));
    } else {
      assert m.world.served == w.served;
    }
  }

  /** Activating the other slot settles a site whose routes and singletons are there already. */
  lemma ActivationSettles(w: World, services: set<string>, c: Color)
    requires DistinctRoutes(w.routes) && RoutesAt(w, Other(c)) && SingletonsOn(w.running, services, Other(c))
    requires AtMostOneActive(w.slots) && ActiveColor(w.slots) == Some(c) && IsStandby(w.slots.At(Other(c)))
    ensures Settled(w.(slots := Activated(w.slots, Other(c))), services, Other(c))
  {
  }

  /** After a failed activation, routes and then singletons go back to where they were. */
  lemma FailedActivationUndone(env: Environment, m: Machine, t: Target, w: World, switched: World, c: Color)
    requires Reliable(env) && t.blueGreen && CanServe(w, t) && Settled(w, t.singletons, c)
    requires switched == w.(running := switched.running) && InFlight(switched.running, w.running, t.singletons, c)
    requires m.world == switched.(routes := m.world.routes, served := m.world.served)
    requires DistinctRoutes(m.world.routes) && RoutesAt(m.world, Other(c))
    requires RecordedAt(w.routes, m.world.routes, Some(Other(c)))
    requires SameBeyond(m.world.served, w.served, w.routes, |w.routes|)
    ensures var back := ApplyRoutes(env, m, t, Some(c), true).m;
            Restore(env, back, t, Some(Other(c)), Some(c)).m.world == w
  {
    ReapplyReturns(env, m, t, switched, c);
    RestoreAfterSwitch(env, ApplyRoutes(env, m, t, Some(c), true).m, t, w.running, c);
  }

  /**
    With a previous colour, the shared tail of deploy and rollback either leaves
    the world exactly as it found it or settles it on the other colour.
   */
  lemma CutoverAllOrNothing(env: Environment, m: Machine, t: Target, c: Color, rollback: bool)
    requires Reliable(env) && t.blueGreen && CanServe(m.world, t)
    requires Settled(m.world, t.singletons, c) && IsStandby(m.world.slots.At(Other(c)))
    ensures var r := Cutover(env, m, t, Some(c), Other(c), true, rollback);
            if !r.ok then r.m.world == m.world
            else Settled(r.m.world, t.singletons, Other(c)) && r.m.world.slots == Activated(m.world.slots, Other(c))
  {
    var w := m.world;
    SwitchAllOrNothing(env, m, t, c);
    var switched := Switch(env, m, t, Some(c), Other(c));
    if switched.ok {
      ApplyRoutesOutcome(env, switched.m, t, Other(c));
      var applied := ApplyRoutes(env, switched.m, t, Some(Other(c)), false);
      if !applied.ok {
        RestoreAfterSwitch(env, applied.m, t, w.running, c);
      } else {
        var activated := Do(env, applied.m, Activate(Other(c), rollback));
        if activated.ok {
          ActivationSettles(applied.m.world, t.singletons, c);
        } else {
          FailedActivationUndone(env, activated.m, t, w, switched.m.world, c);
        }
      }
    }
  }

  // ---- the steps before the cutover ----

  lemma {:induction false} ChecksKeep(env: Environment, m: Machine, whats: seq<Reading>)
    ensures Checks(env, m, whats).m.world == m.world
    decreases |whats|
  {
    if whats != [] && Do(env, m, Check(whats[0], false)).ok {
      ChecksKeep(env, Exec(env, m, Check(whats[0], false)), whats[1..]);
    }
  }

  /** Building the candidate touches nothing but that colour's own singleton containers. */
  predicate OnlyBuilds(steps: seq<Step>, color: Option<Color>, services: set<string>) {
    forall i | 0 <= i < |steps| ::
      var c := steps[i].command;
      || (c.Check? && !c.undo)
      || c == StartStack(color, services)
      || (color.Some? && c == PrepareSingletons(color.value, services))
  }

  lemma RemoteStepsOnlyBuild(t: Target, color: Option<Color>)
    ensures OnlyBuilds(RemoteSteps(t, color), color, if color.Some? then t.singletons else {})
  {
  }

  /** `w` with some of the services of one colour stopped. */
  predicate Cleared(w: World, base: World, color: Option<Color>, services: set<string>) {
    && w == base.(running := w.running)
    && (color.None? ==> w.running == base.running)
    && (color.Some? ==>
         && w.running.At(Other(color.value)) == base.running.At(Other(color.value))
         && base.running.At(color.value) - services <= w.running.At(color.value) <= base.running.At(color.value))
  }

  lemma {:induction false} RunStepsClear(
    env: Environment, m: Machine, base: World, steps: seq<Step>, commit: Option<string>, color: Option<Color>,
    services: set<string>)
    requires OnlyBuilds(steps, color, services) && Cleared(m.world, base, color, services)
    ensures Cleared(RunSteps(env, m, steps, commit).m.world, base, color, services)
    decreases |steps|
  {
    if steps != [] {
      var run := Do(env, m, steps[0].command);
      assert Cleared(run.m.world, base, color, services);
      if run.ok {
        if !steps[0].resolvesCommit {
          RunStepsClear(env, run.m, base, steps[1..], commit, color, services);
        } else {
          var resolved := ResolveCommit(env, run.m, commit);
          assert resolved.m.world == run.m.world;
          if resolved.ok {
            RunStepsClear(env, resolved.m, base, steps[1..], resolved.commit, color, services);
          }
        }
      }
    }
  }

  // ---- a deployment is given something to roll back to ----

  /** What the API accepts: an image or a repository to build, and never a blank commit. */
  predicate Accepted(t: Target) {
    && t.blueGreen
    && (Trim(t.imageRef) != "" || Trim(t.repository) != "")
    && (t.commit.Some? ==> Trim(t.commit.value) != "")
  }

  lemma {:induction false} RunStepsPin(env: Environment, m: Machine, steps: seq<Step>, commit: Option<string>)
    requires commit.Some? ==> Trim(commit.value) != ""
    ensures var r := RunSteps(env, m, steps, commit);
            && (r.commit.Some? ==> Trim(r.commit.value) != "")
            && (commit.Some? ==> r.commit == commit)
            && (r.ok && (exists i :: 0 <= i < |steps| && steps[i].resolvesCommit) ==> r.commit.Some?)
    decreases |steps|
  {
    if steps != [] {
      var run := Do(env, m, steps[0].command);
      if run.ok {
        if !steps[0].resolvesCommit {
          RunStepsPin(env, run.m, steps[1..], commit);
          if i :| 0 <= i < |steps| && steps[i].resolvesCommit {
            assert steps[1..][i - 1].resolvesCommit;
          }
        } else {
          var resolved := ResolveCommit(env, run.m, commit);
          if resolved.ok {
            var head := Trim(FirstLine(Answer(env, run.m, Check(ReadCommit, false)).text));
            TrimKeeps(head);
            RunStepsPin(env, resolved.m, steps[1..], resolved.commit);
          }
        }
      }
    }
  }

  /** Every accepted deployment that got as far as its cutover has a rollback reference. */
  lemma AcceptedHasRef(env: Environment, m: Machine, t: Target, color: Color)
    requires Accepted(t)
    ensures var built := RunSteps(env, m, RemoteSteps(t, Some(color)), t.commit);
            built.ok ==> RollbackRef(t, built.commit) != ""
  {
    var steps := RemoteSteps(t, Some(color));
    RunStepsPin(env, m, steps, t.commit);
    if ShouldSync(t) {
      assert steps[1].resolvesCommit;
    }
  }

  // ---- whole deployments ----

  /**
    A deployment with a previous colour is all or nothing: an error leaves rows,
    proxy, singletons and active slot as they were; success settles everything on
    the other colour, whose slot is this deployment's own and the only active one.
   */
  lemma DeployAllOrNothing(env: Environment, m: Machine, t: Target, c: Color)
    requires Reliable(env) && Accepted(t) && CanServe(m.world, t)
    requires Settled(m.world, t.singletons, c)
    ensures var r := Deploy(env, m, t);
            if !r.ok then
              && r.m.world == m.world.(slots := r.m.world.slots)
              && r.m.world.slots.At(c) == m.world.slots.At(c)
              && Settled(r.m.world, t.singletons, c)
            else
              && Settled(r.m.world, t.singletons, Other(c))
              && r.ref != ""
              && r.m.world.slots.At(Other(c)) == Some(Slot(Active, r.ref, t.deployment))
              && IsStandby(r.m.world.slots.At(c))
  {
    var checked := Checks(env, m, DeployChecks(t));
    ChecksKeep(env, m, DeployChecks(t));
    if checked.ok {
      var color := Some(Other(c));
      assert NextColor(Some(c)) == Other(c);
      RemoteStepsOnlyBuild(t, color);
      RunStepsClear(env, checked.m, m.world, RemoteSteps(t, color), t.commit, color, t.singletons);
      AcceptedHasRef(env, checked.m, t, Other(c));
      var built := RunSteps(env, checked.m, RemoteSteps(t, color), t.commit);
      assert built.m.world.running.At(Other(c)) == m.world.running.At(Other(c));
      assert built.m.world.running == m.world.running;
      if built.ok {
        var recorded := Do(env, built.m, UpsertSlot(Other(c), RollbackRef(t, built.commit), t.deployment));
        if recorded.ok {
          CutoverAllOrNothing(env, recorded.m, t, c, false);
        }
      }
    }
  }
}
