/**
  What holds at every intermediate state of a run: no singleton service runs on
  both colours, and the colour being rebuilt is never the active one.
 */
module Singletons {
  import opened Text
  import opened Site
  import opened Protocol
  import opened Cutovers

  /** No service of the set runs on both colours. */
  predicate NoOverlap(w: World, services: set<string>) {
    forall s | s in services :: !(s in w.running.blue && s in w.running.green)
  }

  /** Every stop issued to take singletons back stops them, even where it reports an error. */
  ghost predicate UndoStopsStop(env: Environment) {
    forall n: nat, c: Command :: c.Stop? && c.undo ==> env(n, c).ok || c.services <= env(n, c).touched
  }

  /** A stack is started only on the next colour, inactive, while rows, proxy and slots are those of `base`. */
  predicate SafeRebuild(e: Event, base: World) {
    e.command.StartStack? && e.command.color.Some? ==>
      && e.before == base.(running := e.before.running)
      && MayRebuild(base, e.command.color.value)
  }

  predicate MayRebuild(base: World, color: Color) {
    color == NextColor(ActiveColor(base.slots)) && !IsActive(base.slots.At(color))
  }

  /** The same route rows, up to the upstream they record. */
  predicate SameRows(a: seq<Route>, b: seq<Route>) {
    |a| == |b| && forall i | 0 <= i < |a| :: b[i] == a[i].(upstream := b[i].upstream)
  }

  /** From `m` to `r` no state has an overlap, every rebuild is safe and no route row comes or goes. */
  ghost predicate Watched(m: Machine, r: Machine, services: set<string>, base: World) {
    && m.trace <= r.trace
    && NoOverlap(r.world, services)
    && SameRows(m.world.routes, r.world.routes)
    && forall i | |m.trace| <= i < |r.trace| :: NoOverlap(r.trace[i].after, services) && SafeRebuild(r.trace[i], base)
  }

  lemma WatchedTransitive(a: Machine, b: Machine, c: Machine, services: set<string>, base: World)
    requires Watched(a, b, services, base) && Watched(b, c, services, base)
    ensures Watched(a, c, services, base)
  {
    forall i | |a.trace| <= i < |c.trace| ensures NoOverlap(c.trace[i].after, services)
      && SafeRebuild(c.trace[i], base) {
      if i < |b.trace| {
        assert c.trace[i] == b.trace[i];
      }
    }
  }

  /** From `m` to `r` the running singletons never change, nor the slots, and no stack is started. */
  ghost predicate Steady(m: Machine, r: Machine) {
    && m.trace <= r.trace
    && r.world.running == m.world.running && r.world.slots == m.world.slots
    && SameRows(m.world.routes, r.world.routes)
    && forall i | |m.trace| <= i < |r.trace| ::
         r.trace[i].after.running == m.world.running && !r.trace[i].command.StartStack?
  }

  lemma SteadyTransitive(a: Machine, b: Machine, c: Machine)
    requires Steady(a, b) && Steady(b, c)
    ensures Steady(a, c)
  {
    forall i | |a.trace| <= i < |c.trace|
      ensures c.trace[i].after.running == a.world.running && !c.trace[i].command.StartStack?
    {
      if i < |b.trace| {
        assert c.trace[i] == b.trace[i];
      }
    }
  }

  lemma SteadyIsWatched(m: Machine, r: Machine, services: set<string>, base: World)
    requires Steady(m, r) && NoOverlap(m.world, services)
    ensures Watched(m, r, services, base)
  {
  }

  // ---- commands that leave the singletons alone ----

  lemma {:induction false} ChecksSteady(env: Environment, m: Machine, whats: seq<Reading>)
    ensures Steady(m, Checks(env, m, whats).m)
    decreases |whats|
  {
    if whats != [] {
      var r := Do(env, m, Check(whats[0], false));
      if r.ok {
        ChecksSteady(env, r.m, whats[1..]);
        SteadyTransitive(m, r.m, Checks(env, m, whats).m);
      }
    }
  }

  lemma {:induction false} PrepareRoutesSteady(
    env: Environment, m: Machine, routes: seq<Route>, color: Option<Color>, undo: bool)
    ensures Steady(m, PrepareRoutes(env, m, routes, color, undo).m)
    decreases |routes|
  {
    if routes != [] && Upstream(routes[0], color).Some? {
      var prepared := Do(env, m, Check(PrepareRoute, undo));
      if prepared.ok {
        PrepareRoutesSteady(env, prepared.m, routes[1..], color, undo);
      }
      SteadyTransitive(m, prepared.m, PrepareRoutes(env, m, routes, color, undo).m);
    }
  }

  lemma {:induction false} UndoRoutesSteady(env: Environment, m: Machine, routes: seq<Route>, n: nat)
    requires n <= |routes|
    ensures Steady(m, UndoRoutes(env, m, routes, n))
    decreases n
  {
    if n > 0 {
      var next := Exec(env, m, SetRoute(routes[n - 1].slug, routes[n - 1].upstream, true));
      UndoRoutesSteady(env, next, routes, n - 1);
      SteadyTransitive(m, next, UndoRoutes(env, m, routes, n));
    }
  }

  lemma {:induction false} SetRoutesSteady(
    env: Environment, m: Machine, routes: seq<Route>, color: Option<Color>, undo: bool, i: nat)
    requires i <= |routes| && Prepared(routes, color)
    ensures Steady(m, SetRoutes(env, m, routes, color, undo, i).m)
    decreases |routes| - i
  {
    if i < |routes| {
      var put := Do(env, m, SetRoute(routes[i].slug, Upstream(routes[i], color).value, undo));
      if put.ok {
        SetRoutesSteady(env, put.m, routes, color, undo, i + 1);
      } else {
        var marked := Exec(env, put.m, Check(MarkRouteFailed, false));
        UndoRoutesSteady(env, marked, routes, i);
        SteadyTransitive(put.m, marked, UndoRoutes(env, marked, routes, i));
      }
      SteadyTransitive(m, put.m, SetRoutes(env, m, routes, color, undo, i).m);
    }
  }

  lemma RecordRoutesSteady(env: Environment, m: Machine, routes: seq<Route>, color: Option<Color>, undo: bool)
    requires Prepared(routes, color)
    ensures Steady(m, RecordRoutes(env, m, routes, color, undo).m)
  {
    var promoted := Do(env, m, Promote(Desired(routes, color), undo));
    assert Steady(m, promoted.m);
    UndoRoutesSteady(env, promoted.m, routes, |routes|);
    SteadyTransitive(m, promoted.m, UndoRoutes(env, promoted.m, routes, |routes|));
  }

  lemma ApplyRoutesSteady(env: Environment, m: Machine, t: Target, color: Option<Color>, undo: bool)
    ensures Steady(m, ApplyRoutes(env, m, t, color, undo).m)
  {
    if t.proxied {
      var listed := Do(env, m, Check(ListRoutes, undo));
      var routes := m.world.routes;
      if listed.ok {
        var prepared := PrepareRoutes(env, listed.m, routes, color, undo);
        PrepareRoutesSteady(env, listed.m, routes, color, undo);
        SteadyTransitive(m, listed.m, prepared.m);
        if prepared.ok {
          PrepareRoutesChecks(env, listed.m, routes, color, undo);
          var put := SetRoutes(env, prepared.m, routes, color, undo, 0);
          SetRoutesSteady(env, prepared.m, routes, color, undo, 0);
          SteadyTransitive(m, prepared.m, put.m);
          if put.ok && routes != [] {
            RecordRoutesSteady(env, put.m, routes, color, undo);
            SteadyTransitive(m, put.m, RecordRoutes(env, put.m, routes, color, undo).m);
          }
        }
      }
    }
  }

  // ---- moving the singletons ----

  lemma RestoreWatched(env: Environment, m: Machine, t: Target, from: Color, to: Option<Color>, base: World)
    requires UndoStopsStop(env) && t.blueGreen && NoOverlap(m.world, t.singletons)
    requires to.Some? ==> to.value == Other(from)
    ensures Watched(m, Restore(env, m, t, Some(from), to).m, t.singletons, base)
    ensures var r := Restore(env, m, t, Some(from), to);
            to.None? ==> r.m.world.running.At(Other(from)) == m.world.running.At(Other(from))
  {
    if t.singletons != {} {
      var stopped := Exec(env, m, Stop(from, t.singletons, true));
      assert stopped.world.running.At(from) !! t.singletons;
      assert NoOverlap(stopped.world, t.singletons);
      assert Watched(m, stopped, t.singletons, base);
      if to.Some? {
        var started := Exec(env, stopped, Start(to.value, t.singletons, true));
        assert started.world.running.At(from) == stopped.world.running.At(from);
        assert NoOverlap(started.world, t.singletons);
        WatchedTransitive(m, stopped, started, t.singletons, base);
      }
    }
  }

  /**
    The switch goes between the two colours and the candidate's singletons are
    stopped; without a previous colour nothing runs on the other one.
   */
  predicate MayStart(w: World, services: set<string>, from: Option<Color>, to: Color) {
    if from.Some? then from.value == Other(to) && w.running.At(to) !! services else w.running.At(Other(to)) !! services
  }

  lemma MoveWatched(env: Environment, m: Machine, c: Command, services: set<string>, base: World)
    requires (c.Stop? || c.Start? || c.Verify?) && NoOverlap(Exec(env, m, c).world, services)
    ensures Watched(m, Exec(env, m, c), services, base)
  {
  }

  lemma StartNewWatched(env: Environment, m: Machine, t: Target, from: Option<Color>, to: Color, base: World)
    requires UndoStopsStop(env) && t.blueGreen && m.world.running.At(Other(to)) !! t.singletons
    requires from.Some? ==> from.value == Other(to)
    ensures var r := StartNew(env, m, t, from, to);
            && Watched(m, r.m, t.singletons, base)
            && (from.None? ==> r.m.world.running.At(Other(to)) == m.world.running.At(Other(to)))
            && (r.ok ==> r.m.world.running.At(Other(to)) !! t.singletons)
  {
    var services := t.singletons;
    var started := Do(env, m, Start(to, services, false));
    assert NoOverlap(started.m.world, services);
    MoveWatched(env, m, Start(to, services, false), services, base);
    if !started.ok {
      RestoreWatched(env, started.m, t, to, from, base);
      WatchedTransitive(m, started.m, Restore(env, started.m, t, Some(to), from).m, services, base);
    } else {
      var checked := Do(env, started.m, Verify(to, services));
      assert NoOverlap(checked.m.world, services);
      MoveWatched(env, started.m, Verify(to, services), services, base);
      WatchedTransitive(m, started.m, checked.m, services, base);
      RestoreWatched(env, checked.m, t, to, from, base);
      WatchedTransitive(m, checked.m, Restore(env, checked.m, t, Some(to), from).m, services, base);
    }
  }

  lemma SwitchWatched(env: Environment, m: Machine, t: Target, from: Option<Color>, to: Color, base: World)
    requires UndoStopsStop(env) && t.blueGreen && NoOverlap(m.world, t.singletons)
    requires MayStart(m.world, t.singletons, from, to)
    ensures var r := Switch(env, m, t, from, to);
            && Watched(m, r.m, t.singletons, base)
            && (from.None? ==> r.m.world.running.At(Other(to)) == m.world.running.At(Other(to)))
            && (r.ok ==> r.m.world.running.At(Other(to)) !! t.singletons)
  {
    var services := t.singletons;
    if services != {} {
      var stopped := if from.Some? then Do(env, m, Stop(from.value, services, false)) else Ended(m, true);
      assert Watched(m, stopped.m, services, base);
      if !stopped.ok {
        var again := Exec(env, stopped.m, Start(from.value, services, true));
        assert again.world.running.At(to) == m.world.running.At(to);
        assert NoOverlap(again.world, services);
        MoveWatched(env, stopped.m, Start(from.value, services, true), services, base);
        WatchedTransitive(m, stopped.m, again, services, base);
      } else {
        assert stopped.m.world.running.At(Other(to)) !! services;
        StartNewWatched(env, stopped.m, t, from, to, base);
        WatchedTransitive(m, stopped.m, StartNew(env, stopped.m, t, from, to).m, services, base);
      }
    }
  }

  // ---- whole runs ----

  lemma CutoverWatched(
    env: Environment, m: Machine, t: Target, from: Option<Color>, to: Color, activate: bool, rollback: bool,
    base: World)
    requires UndoStopsStop(env) && t.blueGreen && NoOverlap(m.world, t.singletons)
    requires MayStart(m.world, t.singletons, from, to)
    ensures var r := Cutover(env, m, t, from, to, activate, rollback);
            && Watched(m, r.m, t.singletons, base)
            && (from.None? ==> r.m.world.running.At(Other(to)) == m.world.running.At(Other(to)))
  {
    var services := t.singletons;
    var switched := Switch(env, m, t, from, to);
    SwitchWatched(env, m, t, from, to, base);
    if switched.ok {
      var applied := ApplyRoutes(env, switched.m, t, Some(to), false);
      ApplyRoutesSteady(env, switched.m, t, Some(to), false);
      SteadyIsWatched(switched.m, applied.m, services, base);
      WatchedTransitive(m, switched.m, applied.m, services, base);
      if !applied.ok {
        RestoreWatched(env, applied.m, t, to, from, base);
        WatchedTransitive(m, applied.m, Restore(env, applied.m, t, Some(to), from).m, services, base);
      } else if activate {
        var activated := Do(env, applied.m, Activate(to, rollback));
        WatchedTransitive(m, applied.m, activated.m, services, base);
        if !activated.ok {
          var back := if from.Some? then ApplyRoutes(env, activated.m, t, from, true).m else activated.m;
          ApplyRoutesSteady(env, activated.m, t, from, true);
          SteadyIsWatched(activated.m, back, services, base);
          WatchedTransitive(m, activated.m, back, services, base);
          RestoreWatched(env, back, t, to, from, base);
          WatchedTransitive(m, back, Restore(env, back, t, Some(to), from).m, services, base);
        }
      }
    }
  }

  lemma BuildStepWatched(env: Environment, m: Machine, c: Command, color: Color, services: set<string>, base: World)
    requires NoOverlap(m.world, services)
    requires c.Check? || c == StartStack(Some(color), services) || c == PrepareSingletons(color, services)
    requires m.world == base.(running := m.world.running) && MayRebuild(base, color)
    ensures var r := Do(env, m, c);
            && Watched(m, r.m, services, base)
            && r.m.world == base.(running := r.m.world.running)
            && r.m.world.running.At(Other(color)) == m.world.running.At(Other(color))
            && r.m.world.running.At(color) <= m.world.running.At(color)
            && (r.ok && c.StartStack? ==> r.m.world.running.At(color) !! services)
  {
  }

  lemma ResolveCommitSteady(env: Environment, m: Machine, commit: Option<string>)
    ensures Steady(m, ResolveCommit(env, m, commit).m) && ResolveCommit(env, m, commit).m.world == m.world
  {
    var read := Do(env, m, Check(ReadCommit, false));
    var pin := Do(env, read.m, Check(PinCommit, false));
    SteadyTransitive(m, read.m, pin.m);
  }

  predicate StartsStack(steps: seq<Step>) {
    exists i :: 0 <= i < |steps| && steps[i].command.StartStack?
  }

  lemma {:induction false} RunStepsWatched(
    env: Environment, m: Machine, steps: seq<Step>, commit: Option<string>, color: Color, services: set<string>,
    base: World)
    requires OnlyBuilds(steps, Some(color), services) && NoOverlap(m.world, services)
    requires m.world == base.(running := m.world.running) && MayRebuild(base, color)
    ensures var r := RunSteps(env, m, steps, commit);
            && Watched(m, r.m, services, base)
            && r.m.world.running.At(Other(color)) == m.world.running.At(Other(color))
            && r.m.world.running.At(color) <= m.world.running.At(color)
            && (r.ok && StartsStack(steps) ==> r.m.world.running.At(color) !! services)
    decreases |steps|
  {
    if steps != [] {
      BuildStepWatched(env, m, steps[0].command, color, services, base);
      var run := Do(env, m, steps[0].command);
      if run.ok {
        var resolved :=
          if steps[0].resolvesCommit then ResolveCommit(env, run.m, commit) else Stepped(run.m, true, commit);
        ResolveCommitSteady(env, run.m, commit);
        SteadyIsWatched(run.m, resolved.m, services, base);
        WatchedTransitive(m, run.m, resolved.m, services, base);
        if resolved.ok {
          RunStepsWatched(env, resolved.m, steps[1..], resolved.commit, color, services, base);
          WatchedTransitive(m, resolved.m, RunSteps(env, m, steps, commit).m, services, base);
          if StartsStack(steps) && !steps[0].command.StartStack? {
            var i :| 0 <= i < |steps| && steps[i].command.StartStack?;
            assert steps[1..][i - 1].command.StartStack?;
          }
        }
      }
    }
  }

  lemma StartStackIndex(t: Target, color: Color) returns (i: nat)
    ensures i < |RemoteSteps(t, Some(color))|
    ensures RemoteSteps(t, Some(color))[i].command == StartStack(Some(color), t.singletons)
  {
    i := 5 + t.serviceFiles + (if ShouldSync(t) then 1 else 0);
  }

  /** Up to the end of the build: the candidate's singletons are stopped and the other colour's are as they were. */
  lemma BuildWatched(env: Environment, m: Machine, t: Target)
    requires NoOverlap(m.world, t.singletons) && AtMostOneActive(m.world.slots)
    requires Checks(env, m, DeployChecks(t)).ok
    ensures var color := NextColor(ActiveColor(m.world.slots));
            var built := RunSteps(env, Checks(env, m, DeployChecks(t)).m, RemoteSteps(t, Some(color)), t.commit);
            && Watched(m, built.m, t.singletons, m.world)
            && built.m.world.running.At(Other(color)) == m.world.running.At(Other(color))
            && built.m.world.running.At(color) <= m.world.running.At(color)
            && (built.ok ==> built.m.world.running.At(color) !! t.singletons)
  {
    var services, base := t.singletons, m.world;
    var checked := Checks(env, m, DeployChecks(t)).m;
    var color := NextColor(ActiveColor(base.slots));
    var steps := RemoteSteps(t, Some(color));
    ChecksSteady(env, m, DeployChecks(t));
    ChecksKeep(env, m, DeployChecks(t));
    SteadyIsWatched(m, checked, services, base);
    RemoteStepsOnlyBuild(t, Some(color));
    var _ := StartStackIndex(t, color);
    RunStepsWatched(env, checked, steps, t.commit, color, services, base);
    WatchedTransitive(m, checked, RunSteps(env, checked, steps, t.commit).m, services, base);
  }

  /** Recording the slot and cutting over. */
  lemma RecordedWatched(
    env: Environment, m: Machine, t: Target, from: Option<Color>, to: Color, ref: string, base: World)
    requires UndoStopsStop(env) && t.blueGreen && NoOverlap(m.world, t.singletons)
    requires MayStart(m.world, t.singletons, from, to)
    ensures var recorded := if ref != "" then Do(env, m, UpsertSlot(to, ref, t.deployment)) else Ended(m, true);
            var r := if recorded.ok then Cutover(env, recorded.m, t, from, to, ref != "", false).m else recorded.m;
            && Watched(m, r, t.singletons, base)
            && (from.None? ==> r.world.running.At(Other(to)) == m.world.running.At(Other(to)))
  {
    var recorded := if ref != "" then Do(env, m, UpsertSlot(to, ref, t.deployment)) else Ended(m, true);
    assert Watched(m, recorded.m, t.singletons, base);
    if recorded.ok {
      CutoverWatched(env, recorded.m, t, from, to, ref != "", false, base);
      WatchedTransitive(m, recorded.m, Cutover(env, recorded.m, t, from, to, ref != "", false).m, t.singletons, base);
    }
  }

  /**
    At every state of a blue/green deployment no singleton runs on both colours
    and only the next colour, inactive, is rebuilt, whatever fails, provided the
    stops issued to take singletons back stop them.
   */
  lemma DeployWatched(env: Environment, m: Machine, t: Target)
    requires UndoStopsStop(env) && t.blueGreen
    requires NoOverlap(m.world, t.singletons) && AtMostOneActive(m.world.slots)
    requires ActiveColor(m.world.slots).None? ==> m.world.running.green !! t.singletons
    ensures Watched(m, Deploy(env, m, t).m, t.singletons, m.world)
    ensures ActiveColor(m.world.slots).None? ==> Deploy(env, m, t).m.world.running.green == m.world.running.green
  {
    var services, base := t.singletons, m.world;
    var checked := Checks(env, m, DeployChecks(t));
    ChecksSteady(env, m, DeployChecks(t));
    SteadyIsWatched(m, checked.m, services, base);
    if checked.ok {
      var current := ActiveColor(base.slots);
      var color := NextColor(current);
      var built := RunSteps(env, checked.m, RemoteSteps(t, Some(color)), t.commit);
      BuildWatched(env, m, t);
      if built.ok {
        var ref := RollbackRef(t, built.commit);
        RecordedWatched(env, built.m, t, current, color, ref, base);
        WatchedTransitive(m, built.m, Deploy(env, m, t).m, services, base);
      }
    }
  }

  /** Planning a rollback changes nothing; it goes to a standby colour, from the active one if there are singletons. */
  lemma PlanRollbackSteady(env: Environment, m: Machine, t: Target)
    ensures var p := PlanRollback(env, m, t);
            && Steady(m, p.m) && p.m.world == m.world
            && (p.ok ==> IsStandby(m.world.slots.At(p.to)))
            && (p.ok ==> p.from == if t.singletons == {} then None else ActiveColor(m.world.slots))
            && (p.ok && t.singletons != {} ==> p.from.Some?)
  {
    var connected := Do(env, m, Check(Connect, false));
    var loaded := Do(env, connected.m, Check(LoadStandbySlot, false));
    SteadyTransitive(m, connected.m, loaded.m);
    var health := (if t.blueGreen then [LoadPorts, CheckHealth] else []) + [DecodeServices];
    var healthy := Checks(env, loaded.m, health);
    ChecksSteady(env, loaded.m, health);
    ChecksKeep(env, loaded.m, health);
    SteadyTransitive(m, loaded.m, healthy.m);
    var active := Do(env, healthy.m, Check(LoadActiveSlot, false));
    SteadyTransitive(m, healthy.m, active.m);
    var load := if t.blueGreen then [LoadPorts] else [];
    ChecksSteady(env, active.m, load);
    ChecksKeep(env, active.m, load);
    SteadyTransitive(m, active.m, Checks(env, active.m, load).m);
  }

  /** The same for a rollback, which finds the standby colour's singletons stopped. */
  lemma RollbackWatched(env: Environment, m: Machine, t: Target)
    requires UndoStopsStop(env) && t.blueGreen
    requires NoOverlap(m.world, t.singletons) && AtMostOneActive(m.world.slots)
    requires ActiveColor(m.world.slots).Some? ==>
      m.world.running.At(Other(ActiveColor(m.world.slots).value)) !! t.singletons
    ensures Watched(m, Rollback(env, m, t).m, t.singletons, m.world)
    ensures ActiveColor(m.world.slots).None? && t.singletons != {} ==> Rollback(env, m, t).m.world == m.world
  {
    var p := PlanRollback(env, m, t);
    PlanRollbackSteady(env, m, t);
    SteadyIsWatched(m, p.m, t.singletons, m.world);
    if p.ok {
      CutoverWatched(env, p.m, t, p.from, p.to, true, true, m.world);
      WatchedTransitive(m, p.m, Rollback(env, m, t).m, t.singletons, m.world);
    }
  }
}
