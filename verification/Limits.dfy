/**
  Where all-or-nothing ends: for each hypothesis of the protocol theorems, the
  environments that break the claim without it and the exact sites it breaks on.
 */
module Limits {
  import opened Text
  import opened Site
  import opened Protocol
  import opened RouteMoves
  import opened Cutovers
  import opened Singletons
  import opened Runs

  /** A commit, as git prints it. */
  function Head(): string {
    seq(40, _ => 'a')
  }

  function Good(): Outcome {
    Outcome(true, {}, {}, Head())
  }

  /** Everything succeeds except the statement that activates a slot. */
  function ActivationFails(): Environment {
    (n: nat, c: Command) => if c.Activate? then Outcome(false, {}, {}, "") else Good()
  }

  lemma ActivationFailsIsReliable()
    ensures Reliable(ActivationFails())
  {
  }

  // ---- how far a run gets when everything else succeeds ----

  lemma {:induction false} ChecksPass(env: Environment, m: Machine, whats: seq<Reading>)
    requires env == ActivationFails()
    ensures Checks(env, m, whats).ok
    decreases |whats|
  {
    if whats != [] {
      ChecksPass(env, Exec(env, m, Check(whats[0], false)), whats[1..]);
    }
  }

  lemma {:induction false} FirstLineKeeps(s: string)
    requires '\n' !in s
    ensures FirstLine(s) == s
  {
    if s != [] {
      FirstLineKeeps(s[1..]);
    }
  }

  lemma HeadIsCommit()
    ensures IsCommit(Trim(FirstLine(Head())))
  {
    assert '\n' !in Head();
    FirstLineKeeps(Head());
    TrimKeeps(Head());
  }

  lemma {:induction false} RunStepsPass(env: Environment, m: Machine, steps: seq<Step>, commit: Option<string>)
    requires env == ActivationFails()
    requires forall i | 0 <= i < |steps| :: !steps[i].command.Activate?
    ensures RunSteps(env, m, steps, commit).ok
    decreases |steps|
  {
    if steps != [] {
      HeadIsCommit();
      var run := Do(env, m, steps[0].command);
      if steps[0].resolvesCommit {
        var resolved := ResolveCommit(env, run.m, commit);
        RunStepsPass(env, resolved.m, steps[1..], resolved.commit);
      } else {
        RunStepsPass(env, run.m, steps[1..], commit);
      }
    }
  }

  lemma {:induction false} PrepareRoutesPass(
    env: Environment, m: Machine, routes: seq<Route>, color: Option<Color>, undo: bool)
    requires env == ActivationFails() && Prepared(routes, color)
    ensures PrepareRoutes(env, m, routes, color, undo).ok
    decreases |routes|
  {
    if routes != [] {
      PrepareRoutesPass(env, Exec(env, m, Check(PrepareRoute, undo)), routes[1..], color, undo);
    }
  }

  lemma {:induction false} SetRoutesPass(
    env: Environment, m: Machine, routes: seq<Route>, color: Option<Color>, undo: bool, i: nat)
    requires env == ActivationFails() && i <= |routes| && Prepared(routes, color)
    ensures SetRoutes(env, m, routes, color, undo, i).ok
    decreases |routes| - i
  {
    if i < |routes| {
      var put := Exec(env, m, SetRoute(routes[i].slug, Upstream(routes[i], color).value, undo));
      SetRoutesPass(env, put, routes, color, undo, i + 1);
    }
  }

  lemma ApplyRoutesPass(env: Environment, m: Machine, t: Target, color: Option<Color>, undo: bool)
    requires env == ActivationFails() && Prepared(m.world.routes, color)
    ensures ApplyRoutes(env, m, t, color, undo).ok
  {
    if t.proxied {
      var listed := Exec(env, m, Check(ListRoutes, undo));
      PrepareRoutesPass(env, listed, m.world.routes, color, undo);
      SetRoutesPass(env, PrepareRoutes(env, listed, m.world.routes, color, undo).m, m.world.routes, color, undo, 0);
    }
  }

  /** Without a previous colour the cutover's routes stay where they were moved when the activation fails. */
  lemma FirstCutoverStrands(m: Machine, t: Target, to: Color, rollback: bool)
    requires t.blueGreen && CanServe(m.world, t) && DistinctRoutes(m.world.routes) && Prepared(m.world.routes, Some(to))
    ensures var r := Cutover(ActivationFails(), m, t, None, to, true, rollback);
            !r.ok && RoutesAt(r.m.world, to) && SameRows(m.world.routes, r.m.world.routes)
  {
    var env := ActivationFails();
    var switched := Switch(env, m, t, None, to);
    assert switched.ok && switched.m.world == m.world.(running := switched.m.world.running);
    ApplyRoutesPass(env, switched.m, t, Some(to), false);
    ApplyRoutesServes(env, switched.m, t, to, false);
    ApplyRoutesSteady(env, switched.m, t, Some(to), false);
    var applied := ApplyRoutes(env, switched.m, t, Some(to), false).m;
    var activated := Exec(env, applied, Activate(to, rollback));
    var restored := Restore(env, activated, t, Some(to), None).m;
    assert restored.world == activated.world.(running := restored.world.running);
  }

  /** Applying the routes of the colour they already point at changes nothing, fail or not. */
  lemma ReapplyKeeps(env: Environment, m: Machine, t: Target, c: Color)
    requires Reliable(env) && DistinctRoutes(m.world.routes) && RoutesAt(m.world, c)
    ensures ApplyRoutes(env, m, t, Some(c), false).m.world == m.world
  {
    if t.proxied {
      ApplyRoutesAllOrNothing(env, m, t, Some(c), false);
      var r := ApplyRoutes(env, m, t, Some(c), false);
      if r.ok {
        assert r.m.world.routes == m.world.routes;
        forall slug | slug in m.world.served ensures r.m.world.served[slug] == m.world.served[slug] {
          if i :| 0 <= i < |m.world.routes| && m.world.routes[i].slug == slug {
            assert r.m.world.served[r.m.world.routes[i].slug] == r.m.world.routes[i].upstream;
          }
        }
        assert r.m.world.served == m.world.served;
      }
    }
  }

  lemma FirstCutoverKeepsTraffic(env: Environment, m: Machine, t: Target, to: Color, rollback: bool)
    requires Reliable(env) && t.blueGreen && DistinctRoutes(m.world.routes) && RoutesAt(m.world, to)
    ensures SameTraffic(Cutover(env, m, t, None, to, true, rollback).m.world, m.world)
  {
    var switched := Switch(env, m, t, None, to);
    SwitchFirst(env, m, t, to);
    if switched.ok {
      ReapplyKeeps(env, switched.m, t, to);
      var applied := ApplyRoutes(env, switched.m, t, Some(to), false);
      RestoreOnlyRuns(env, applied.m, t, to, None);
      RestoreOnlyRuns(env, Exec(env, applied.m, Activate(to, rollback)), t, to, None);
    }
  }

  predicate SameTraffic(a: World, b: World) {
    a.routes == b.routes && a.served == b.served
  }

  /**
    An application's first deployment leaves traffic as it was on every error if
    and only if its routes already point at blue: its failed activation cannot be
    taken back, because there is no previous colour to go back to.
   */
  lemma FirstDeployAllOrNothingExactly(m: Machine, t: Target)
    requires Accepted(t) && CanServe(m.world, t) && ActiveColor(m.world.slots).None?
    requires DistinctRoutes(m.world.routes) && Prepared(m.world.routes, Some(Blue))
    ensures (forall env :: Reliable(env) && !Deploy(env, m, t).ok ==> SameTraffic(Deploy(env, m, t).m.world, m.world))
            <==> RoutesAt(m.world, Blue)
  {
    FirstDeployStrands(m, t);
    if RoutesAt(m.world, Blue) {
      forall env | Reliable(env) && !Deploy(env, m, t).ok ensures SameTraffic(Deploy(env, m, t).m.world, m.world) {
        FirstDeployKeepsTraffic(env, m, t);
      }
    }
  }

  /** With only its activation failing, a first deployment leaves the routes where it moved them. */
  lemma FirstDeployStrands(m: Machine, t: Target)
    requires Accepted(t) && CanServe(m.world, t) && ActiveColor(m.world.slots).None?
    requires DistinctRoutes(m.world.routes) && Prepared(m.world.routes, Some(Blue))
    ensures var env := ActivationFails();
            Reliable(env) && !Deploy(env, m, t).ok && RoutesAt(Deploy(env, m, t).m.world, Blue)
  {
    ActivationFailsIsReliable();
    var recorded := FirstDeployReachesCutover(m, t);
    FirstCutoverStrands(recorded, t, Blue, false);
  }

  lemma FirstDeployReachesCutover(m: Machine, t: Target) returns (recorded: Machine)
    requires Accepted(t) && ActiveColor(m.world.slots).None?
    ensures SameTraffic(recorded.world, m.world)
    ensures var env := ActivationFails();
            var moved := Cutover(env, recorded, t, None, Blue, true, false);
            Deploy(env, m, t).m == moved.m && Deploy(env, m, t).ok == moved.ok
  {
    var env := ActivationFails();
    FirstBuildPasses(m, t);
    DeployUnfolds(env, m, t);
    var checked := Checks(env, m, DeployChecks(t)).m;
    var built := RunSteps(env, checked, RemoteSteps(t, Some(Blue)), t.commit);
    recorded := Exec(env, built.m, UpsertSlot(Blue, RollbackRef(t, built.commit), t.deployment));
  }

  lemma FirstBuildPasses(m: Machine, t: Target)
    requires Accepted(t) && ActiveColor(m.world.slots).None?
    ensures var env := ActivationFails();
            var checked := Checks(env, m, DeployChecks(t));
            var built := RunSteps(env, checked.m, RemoteSteps(t, Some(Blue)), t.commit);
            && checked.ok && built.ok && RollbackRef(t, built.commit) != "" && SameTraffic(built.m.world, m.world)
  {
    var env := ActivationFails();
    DeployToFirstCutover(env, m, t);
    ChecksPass(env, m, DeployChecks(t));
    RemoteStepsOnlyBuild(t, Some(Blue));
    RunStepsPass(env, Checks(env, m, DeployChecks(t)).m, RemoteSteps(t, Some(Blue)), t.commit);
  }

  /** Every step of a build that got through was issued. */
  lemma {:induction false} StepIssued(env: Environment, m: Machine, steps: seq<Step>, commit: Option<string>, k: nat)
    requires RunSteps(env, m, steps, commit).ok && k < |steps|
    ensures var r := RunSteps(env, m, steps, commit);
            exists i :: |m.trace| <= i < |r.m.trace| && r.m.trace[i].command == steps[k].command
    decreases |steps|
  {
    var r := RunSteps(env, m, steps, commit);
    var run := Do(env, m, steps[0].command);
    var next := if steps[0].resolvesCommit then ResolveCommit(env, run.m, commit) else Stepped(run.m, true, commit);
    if k == 0 {
      assert run.m.trace[|m.trace|].command == steps[0].command;
      assert run.m.trace <= next.m.trace <= r.m.trace;
      assert r.m.trace[|m.trace|] == run.m.trace[|m.trace|];
    } else {
      StepIssued(env, next.m, steps[1..], next.commit, k - 1);
    }
  }

  /**
    After a first deployment whose activation failed every route is served at blue
    and no slot is active, so the next deployment rebuilds the colour that serves.
   */
  lemma StrandedColorIsRebuilt(m: Machine, t: Target) returns (i: nat)
    requires Accepted(t) && CanServe(m.world, t) && Prepared(m.world.routes, Some(Blue))
    requires Agreed(m.world, t.singletons) && ActiveColor(m.world.slots).None?
    ensures var env := ActivationFails();
            var first := Deploy(env, m, t);
            var again := Deploy(env, first.m, t);
            && Reliable(env) && !first.ok && |first.m.trace| <= i < |again.m.trace|
            && again.m.trace[i].command == StartStack(Some(Blue), t.singletons)
            && RoutesAt(again.m.trace[i].before, Blue) && ActiveColor(again.m.trace[i].before.slots).None?
  {
    var env := ActivationFails();
    var first := Deploy(env, m, t).m;
    FirstDeployStrands(m, t);
    UndoCoversStops(env);
    DeployFirst(env, m, t);
    DeployWatched(env, m, t);
    FirstBuildPasses(first, t);
    DeployWatched(env, first, t);
    var checked := Checks(env, first, DeployChecks(t)).m;
    var k := StartStackIndex(t, Blue);
    StepIssued(env, checked, RemoteSteps(t, Some(Blue)), t.commit, k);
    var built := RunSteps(env, checked, RemoteSteps(t, Some(Blue)), t.commit).m;
    i :| |checked.trace| <= i < |built.trace| && built.trace[i].command == StartStack(Some(Blue), t.singletons);
    DeployUnfolds(env, first, t);
    assert built.trace <= Deploy(env, first, t).m.trace;
    assert Deploy(env, first, t).m.trace[i] == built.trace[i];
  }

  /** Up to its cutover a first deployment leaves the traffic alone, and it has a rollback reference by then. */
  lemma DeployToFirstCutover(env: Environment, m: Machine, t: Target)
    requires Accepted(t) && ActiveColor(m.world.slots).None?
    ensures var checked := Checks(env, m, DeployChecks(t));
            var built := RunSteps(env, checked.m, RemoteSteps(t, Some(Blue)), t.commit);
            && checked.m.world == m.world && SameTraffic(built.m.world, m.world)
            && (built.ok ==> RollbackRef(t, built.commit) != "")
  {
    var checked := Checks(env, m, DeployChecks(t));
    ChecksKeep(env, m, DeployChecks(t));
    BuildKeepsTraffic(env, checked.m, t);
    AcceptedHasRef(env, checked.m, t, Blue);
  }

  lemma DeployUnfolds(env: Environment, m: Machine, t: Target)
    requires t.blueGreen && ActiveColor(m.world.slots).None?
    ensures var checked := Checks(env, m, DeployChecks(t));
            var built := RunSteps(env, checked.m, RemoteSteps(t, Some(Blue)), t.commit);
            var ref := RollbackRef(t, built.commit);
            var recorded := Do(env, built.m, UpsertSlot(Blue, ref, t.deployment));
            && (!checked.ok ==> Deploy(env, m, t) == Deployed(checked.m, false, ""))
            && (checked.ok && !built.ok ==> Deploy(env, m, t) == Deployed(built.m, false, ref))
            && (checked.ok && built.ok && ref != "" ==>
                  var moved := Cutover(env, recorded.m, t, None, Blue, true, false);
                  Deploy(env, m, t) == if recorded.ok
                    then Deployed(moved.m, moved.ok, ref) else Deployed(recorded.m, false, ref))
  {
  }

  lemma BuildKeepsTraffic(env: Environment, m: Machine, t: Target)
    ensures SameTraffic(RunSteps(env, m, RemoteSteps(t, Some(Blue)), t.commit).m.world, m.world)
  {
    RemoteStepsOnlyBuild(t, Some(Blue));
    RunStepsClear(env, m, m.world, RemoteSteps(t, Some(Blue)), t.commit, Some(Blue), t.singletons);
  }

  lemma FirstDeployKeepsTraffic(env: Environment, m: Machine, t: Target)
    requires Reliable(env) && Accepted(t) && ActiveColor(m.world.slots).None?
    requires DistinctRoutes(m.world.routes) && RoutesAt(m.world, Blue)
    ensures SameTraffic(Deploy(env, m, t).m.world, m.world)
  {
    DeployToFirstCutover(env, m, t);
    DeployUnfolds(env, m, t);
    var checked := Checks(env, m, DeployChecks(t));
    var built := RunSteps(env, checked.m, RemoteSteps(t, Some(Blue)), t.commit);
    var recorded := Do(env, built.m, UpsertSlot(Blue, RollbackRef(t, built.commit), t.deployment));
    if checked.ok && built.ok && recorded.ok {
      FirstCutoverKeepsTraffic(env, recorded.m, t, Blue, false);
    }
  }

  /**
    A rollback without singleton services is all or nothing if and only if both
    colours have the same upstreams: it never loads the colour to go back to.
   */
  lemma RollbackAllOrNothingExactly(m: Machine, t: Target, c: Color)
    requires t.blueGreen && t.singletons == {} && CanServe(m.world, t)
    requires Settled(m.world, t.singletons, c) && IsStandby(m.world.slots.At(Other(c)))
    requires Prepared(m.world.routes, Some(Other(c)))
    ensures (forall env :: Reliable(env) && !Rollback(env, m, t).ok ==>
      SameTraffic(Rollback(env, m, t).m.world, m.world))
            <==> RoutesAt(m.world, Other(c))
  {
    var env := ActivationFails();
    ActivationFailsIsReliable();
    PlanRollbackSteady(env, m, t);
    var p := PlanRollback(env, m, t);
    PlanRollbackPasses(m, t, c);
    FirstCutoverStrands(p.m, t, Other(c), true);
    if RoutesAt(m.world, Other(c)) {
      forall env | Reliable(env) && !Rollback(env, m, t).ok ensures SameTraffic(Rollback(env, m, t).m.world, m.world) {
        PlanRollbackSteady(env, m, t);
        var p := PlanRollback(env, m, t);
        if p.ok {
          FirstCutoverKeepsTraffic(env, p.m, t, Other(c), true);
        }
      }
    }
  }

  lemma PlanRollbackPasses(m: Machine, t: Target, c: Color)
    requires t.singletons == {} && ActiveColor(m.world.slots) == Some(c) && IsStandby(m.world.slots.At(Other(c)))
    ensures PlanRollback(ActivationFails(), m, t).ok
  {
    var env := ActivationFails();
    var loaded := Exec(env, Exec(env, m, Check(Connect, false)), Check(LoadStandbySlot, false));
    ChecksPass(env, loaded, (if t.blueGreen then [LoadPorts, CheckHealth] else []) + [DecodeServices]);
  }

  // ---- stops that fail while singletons are taken back ----

  /**
    Restoring starts the old colour even if stopping the new one failed. No singleton
    then runs on both colours if and only if the stop hit every running one that the
    start brought back.
   */
  lemma FailedUndoStopOverlaps(env: Environment, m: Machine, t: Target, from: Color)
    requires t.blueGreen && NoOverlap(m.world, t.singletons)
    ensures var stop, start := Stop(from, t.singletons, true), Start(Other(from), t.singletons, true);
            var stopped := Hit(Answer(env, m, stop), t.singletons);
            var started := Hit(Answer(env, Exec(env, m, stop), start), t.singletons);
            NoOverlap(Restore(env, m, t, Some(from), Some(Other(from))).m.world, t.singletons)
            <==> m.world.running.At(from) * started <= stopped
  {
    var services := t.singletons;
    if services != {} {
      var stop, start := Stop(from, services, true), Start(Other(from), services, true);
      var half := Exec(env, m, stop);
      var end := Exec(env, half, start).world;
      assert Restore(env, m, t, Some(from), Some(Other(from))).m.world == end;
      var stopped, started := Hit(Answer(env, m, stop), services), Hit(Answer(env, half, start), services);
      assert end.running.At(from) == m.world.running.At(from) - stopped;
      assert end.running.At(Other(from)) == m.world.running.At(Other(from)) + started;
      assert NoOverlap(end, services) <==>
             forall s | s in services :: !(s in end.running.At(from) && s in end.running.At(Other(from)));
    }
  }

  // ---- routes that move although their command failed, rows that are gone when promoted ----

  /** Where the loop over the routes stops: the route whose command failed, and the moment it was issued. */
  lemma {:induction false} FailedRoute(
    env: Environment, m: Machine, base: World, routes: seq<Route>, color: Option<Color>, i: nat)
    returns (k: nat, at: Machine)
    requires UndoSucceeds(env) && i <= |routes| && Prepared(routes, color) && DistinctRoutes(routes)
    requires Consistent(routes, base.served) && ServedUpTo(m.world, base, routes, color, i)
    requires !SetRoutes(env, m, routes, color, false, i).ok
    ensures k < |routes| && m.trace <= at.trace <= SetRoutes(env, m, routes, color, false, i).m.trace
    ensures Strays(env, at, base, routes[k], color, SetRoutes(env, m, routes, color, false, i).m.world)
    decreases |routes| - i
  {
    var c := SetRoute(routes[i].slug, Upstream(routes[i], color).value, false);
    var put := Do(env, m, c);
    if put.ok {
      ServedOneMore(m.world, base, routes, color, i);
      k, at := FailedRoute(env, put.m, base, routes, color, i + 1);
    } else {
      k, at := i, m;
      var marked := Exec(env, put.m, Check(MarkRouteFailed, false));
      var served := if c.slug in Answer(env, m, c).touched then base.served[c.slug := c.url] else base.served;
      StrayBeyond(m.world.served, base.served, routes, i, c.slug, c.url);
      UndoRoutesRestores(env, marked, base.(served := served), routes, i);
    }
  }

  /** The command of this route fails at `at`; afterwards its file, and only that, may serve the new upstream. */
  predicate Strays(env: Environment, at: Machine, base: World, route: Route, color: Option<Color>, end: World) {
    && Upstream(route, color).Some?
    && var c := SetRoute(route.slug, Upstream(route, color).value, false);
       && !Answer(env, at, c).ok
       && end == base.(served := if c.slug in Answer(env, at, c).touched
          then base.served[c.slug := c.url] else base.served)
  }

  lemma StrayBeyond(
    served: map<string, string>, base: map<string, string>, routes: seq<Route>, i: nat, slug: string, url: string)
    requires i < |routes| && routes[i].slug == slug && DistinctRoutes(routes) && Consistent(routes, base)
    requires SameBeyond(served, base, routes, i)
    ensures SameBeyond(served[slug := url], base[slug := url], routes, i)
    ensures Consistent(routes[..i], base[slug := url]) && Consistent(routes[..i], base)
  {
  }

  /**
    The route whose own command failed is not among those taken back. Rows and proxy
    are as before if and only if that command left its route file alone or was to
    serve what the row recorded.
   */
  lemma FailedRouteIsNotTakenBack(env: Environment, m: Machine, t: Target, color: Option<Color>)
    returns (k: nat, at: Machine)
    requires UndoSucceeds(env) && t.proxied
    requires DistinctRoutes(m.world.routes) && Consistent(m.world.routes, m.world.served)
    requires Prepared(m.world.routes, color) && RoutesFail(env, m, color)
    ensures var r := ApplyRoutes(env, m, t, color, false);
            && !r.ok && m.trace <= at.trace <= r.m.trace && k < |m.world.routes|
            && var route := m.world.routes[k];
               var out := Answer(env, at, SetRoute(route.slug, Upstream(route, color).value, false));
               && !out.ok
               && (r.m.world == m.world <==>
                  route.slug !in out.touched || Upstream(route, color) == Some(route.upstream))
  {
    var w := m.world;
    var listed := Exec(env, m, Check(ListRoutes, false));
    var prepared := PrepareRoutes(env, listed, w.routes, color, false).m;
    PrepareRoutesKeeps(env, listed, w.routes, color, false);
    k, at := FailedRoute(env, prepared, w, w.routes, color, 0);
    var route := w.routes[k];
    var url := Upstream(route, color).value;
    assert w.served[route.slug := url] == w.served <==> url == route.upstream;
  }

  /** The routes can be listed and prepared, and the command of one of them fails. */
  predicate RoutesFail(env: Environment, m: Machine, color: Option<Color>)
    requires Prepared(m.world.routes, color)
  {
    var listed := Do(env, m, Check(ListRoutes, false));
    var prepared := PrepareRoutes(env, listed.m, m.world.routes, color, false);
    listed.ok && prepared.ok && !SetRoutes(env, prepared.m, m.world.routes, color, false, 0).ok
  }

  /**
    Rows that are gone when promoted: the proxy goes back, but the rows still there
    keep what was written to them, so nothing changed exactly if they recorded it already.
   */
  lemma MissedRowsExactly(env: Environment, m: Machine, base: World, color: Option<Color>, missed: set<nat>)
    requires UndoSucceeds(env) && Prepared(base.routes, color) && DistinctRoutes(base.routes)
    requires Consistent(base.routes, base.served) && ServedUpTo(m.world, base, base.routes, color, |base.routes|)
    requires Answer(env, m, Promote(Desired(base.routes, color), false)).ok
    requires Answer(env, m, Promote(Desired(base.routes, color), false)).missed == missed
    requires exists i :: 0 <= i < |base.routes| && base.routes[i].id in missed
    ensures var r := RecordRoutes(env, m, base.routes, color, false);
            && !r.ok
            && r.m.world == base.(routes := r.m.world.routes)
            && (r.m.world == base <==>
                  forall i | 0 <= i < |base.routes| ::
                    base.routes[i].id in missed || Upstream(base.routes[i], color) == Some(base.routes[i].upstream))
  {
    var desired := Desired(base.routes, color);
    DesiredAt(base.routes, color);
    var promoted := Exec(env, m, Promote(desired, false));
    var written := Promoted(base.routes, desired, missed);
    var i :| 0 <= i < |base.routes| && base.routes[i].id in missed;
    assert base.routes[i].id in desired.Keys;
    UndoRoutesRestores(env, promoted, base.(routes := written), base.routes, |base.routes|);
    if written == base.routes {
      forall j | 0 <= j < |base.routes|
        ensures base.routes[j].id in missed || Upstream(base.routes[j], color) == Some(base.routes[j].upstream)
      {
        assert written[j] == base.routes[j];
      }
    }
  }

  // ---- route files ----

  /** routeSlug on a valid lower-case domain: the dots become hyphens. */
  function RouteSlug(domain: string): (slug: string)
    ensures |slug| == |domain|
  {
    seq(|domain|, i requires 0 <= i < |domain| => if domain[i] == '.' then '-' else domain[i])
  }

  /** Two domains share a route file exactly when they differ only in dots against hyphens. */
  lemma SharedRouteFileExactly(a: string, b: string)
    ensures RouteSlug(a) == RouteSlug(b) <==>
              |a| == |b| && forall i | 0 <= i < |a| :: a[i] == b[i] || (a[i] in ".-" && b[i] in ".-")
  {
    if RouteSlug(a) == RouteSlug(b) {
      forall i | 0 <= i < |a| ensures a[i] == b[i] || (a[i] in ".-" && b[i] in ".-") {
        assert RouteSlug(a)[i] == RouteSlug(b)[i];
      }
    }
  }
}
