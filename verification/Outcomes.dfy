/** What the methods of a run promise their callers: the site afterwards and the commands issued. */
module Outcomes {
  import opened Text
  import opened Site
  import opened Protocol
  import opened RouteMoves
  import opened Cutovers
  import opened Runs
  import opened Addresses
  import opened Scripts

  // ---- routes ----

  /** A listed route cannot be prepared without an address. */
  ghost predicate PrepareOutcome(routes: seq<Route>, color: Option<Color>, ok: bool) {
    && (ok ==> forall i | 0 <= i < |routes| :: !Blank(routes[i], color))
    && ((exists i :: 0 <= i < |routes| && Blank(routes[i], color)) ==> !ok)
  }

  lemma PrepareMeets(env: Environment, m: Machine, routes: seq<Route>, color: Option<Color>, undo: bool)
    ensures PrepareOutcome(routes, color, PrepareRoutes(env, m, routes, color, undo).ok)
  {
    PrepareRoutesChecks(env, m, routes, color, undo);
    PreparedExactly(routes, color);
    PrepareRoutesExactly(env, m, routes, color, undo);
  }

  /** Each listed route is served at the column of the colour, or without a colour at what it records. */
  predicate ServedAtColumns(routes: seq<Route>, served: map<string, string>, color: Option<Color>) {
    forall i | 0 <= i < |routes| ::
      && routes[i].slug in served
      && (color == Some(Blue) ==> served[routes[i].slug] == Trim(routes[i].blue))
      && (color == Some(Green) ==> served[routes[i].slug] == Trim(routes[i].green))
      && (color == None ==> served[routes[i].slug] == routes[i].upstream)
  }

  lemma SetMeets(env: Environment, m: Machine, routes: seq<Route>, color: Option<Color>, undo: bool)
    requires Prepared(routes, color)
    ensures var r := SetRoutes(env, m, routes, color, undo, 0);
            r.ok && DistinctRoutes(routes) ==> ServedAtColumns(routes, r.m.world.served, color)
  {
    var r := SetRoutes(env, m, routes, color, undo, 0);
    if r.ok && DistinctRoutes(routes) {
      SetRoutesServe(env, m, routes, color, undo, 0);
      forall i | 0 <= i < |routes| ensures Upstream(routes[i], color).value == AddressOf(routes[i], color) {
        UpstreamExactly(routes[i], color);
      }
    }
  }

  /**
    Success records and serves every route at its column and issues exactly the
    script; a blank column is refused before anything moves.
   */
  ghost predicate ApplyOutcome(
    env: Environment, before: Machine, t: Target, color: Option<Color>, undo: bool, after: Machine, ok: bool)
  {
    var routes := before.world.routes;
    && (DistinctRoutes(routes) && ok ==>
          && (CanServe(before.world, t) ==> Addressed(routes, after.world, color))
          && (!undo ==> Ran(env, before, after, RoutesScript(t, routes, color))))
    && (t.proxied && (exists i :: 0 <= i < |routes| && Blank(routes[i], color)) ==> !ok && after.world == before.world)
  }

  lemma ApplyMeets(env: Environment, m: Machine, t: Target, color: Option<Color>, undo: bool)
    ensures var r := ApplyRoutes(env, m, t, color, undo); ApplyOutcome(env, m, t, color, undo, r.m, r.ok)
  {
    var routes := m.world.routes;
    if DistinctRoutes(routes) && ApplyRoutes(env, m, t, color, undo).ok {
      if CanServe(m.world, t) {
        ApplyRoutesAddresses(env, m, t, color, undo);
      }
      if !undo {
        RoutesRan(env, m, t, color);
      }
    }
    if t.proxied && exists i :: 0 <= i < |routes| && Blank(routes[i], color) {
      BlankIsRefused(env, m, t, color, undo);
    }
  }

  // ---- steps ----

  /** Success issued every step in order; a commit pinned before is kept, and otherwise HEAD was read and pinned. */
  ghost predicate StepsOutcome(
    env: Environment, before: Machine, steps: seq<Step>, commit: Option<string>, after: Machine, ok: bool,
    pinned: Option<string>)
  {
    ok ==>
      && Ran(env, before, after, StepScript(steps))
      && if commit.Some? then pinned == commit
         else if exists i :: 0 <= i < |steps| && steps[i].resolvesCommit
         then pinned.Some? && HeadRead(env, before, after, pinned.value)
         else pinned == None
  }

  lemma StepsMeet(env: Environment, m: Machine, steps: seq<Step>, commit: Option<string>)
    ensures var r := RunSteps(env, m, steps, commit); StepsOutcome(env, m, steps, commit, r.m, r.ok, r.commit)
  {
    if RunSteps(env, m, steps, commit).ok {
      StepsRan(env, m, steps, commit);
      StepsPinHead(env, m, steps, commit);
    }
  }

  ghost predicate ResolveOutcome(
    env: Environment, before: Machine, commit: Option<string>, after: Machine, ok: bool, pinned: Option<string>)
  {
    ok ==>
      && Ran(env, before, after, Reads([ReadCommit, PinCommit]))
      && if commit.Some? then pinned == commit else pinned.Some? && HeadRead(env, before, after, pinned.value)
  }

  lemma ResolveMeets(env: Environment, m: Machine, commit: Option<string>)
    ensures var r := ResolveCommit(env, m, commit); ResolveOutcome(env, m, commit, r.m, r.ok, r.commit)
  {
    if ResolveCommit(env, m, commit).ok {
      ResolveRan(env, m, commit);
      ResolvePinsHead(env, m, commit);
    }
  }

  // ---- whole runs ----

  lemma SwitchMeets(env: Environment, m: Machine, t: Target, from: Option<Color>, to: Color)
    ensures var r := Switch(env, m, t, from, to); r.ok ==> Ran(env, m, r.m, SwitchScript(t, from, to))
  {
    if Switch(env, m, t, from, to).ok {
      SwitchRan(env, m, t, from, to);
    }
  }

  ghost predicate CutoverOutcome(
    env: Environment, before: Machine, t: Target, from: Option<Color>, to: Color, activate: bool, rollback: bool,
    after: Machine, ok: bool)
  {
    DistinctRoutes(before.world.routes) && ok ==>
      && Ran(env, before, after, CutoverScript(t, before.world.routes, from, to, activate, rollback))
      && (CanServe(before.world, t) ==> Addressed(before.world.routes, after.world, Some(to)))
  }

  lemma CutoverMeets(
    env: Environment, m: Machine, t: Target, from: Option<Color>, to: Color, activate: bool, rollback: bool)
    ensures var r := Cutover(env, m, t, from, to, activate, rollback);
            CutoverOutcome(env, m, t, from, to, activate, rollback, r.m, r.ok)
  {
    if DistinctRoutes(m.world.routes) && Cutover(env, m, t, from, to, activate, rollback).ok {
      CutoverRan(env, m, t, from, to, activate, rollback);
      if CanServe(m.world, t) {
        CutoverAddresses(env, m, t, from, to, activate, rollback);
      }
    }
  }

  /** Whatever the environment, every command that moves something follows a passed health check of the candidate. */
  ghost predicate DeployOrder(env: Environment, before: Machine, t: Target, after: Machine) {
    && MovesAfter(env, before, after, BuildScript(t, TargetColor(t, before.world)))
    && (t.blueGreen ==>
          forall i | |before.trace| <= i < |after.trace| && Moves(after.trace[i].command) ::
            StartedHealthyBefore(
              env, after.trace, |before.trace|, i, TargetColor(t, before.world).value, t.singletons))
  }

  /** Success: the script was followed, routes are at their columns, the reference is the image or the commit. */
  ghost predicate DeploySuccess(env: Environment, before: Machine, t: Target, after: Machine, ref: string) {
    && Reference(env, before, after, t, ref)
    && (DistinctRoutes(before.world.routes) ==>
          && Ran(env, before, after, DeployScript(before.world, t, ref))
          && (CanServe(before.world, t) ==> Addressed(before.world.routes, after.world, TargetColor(t, before.world))))
  }

  /**
    What a caller of Deploy is promised: in any environment nothing moves before the
    candidate was found healthy, and success means the script was followed and leaves
    this deployment's slot the active one; from a settled site a reliable environment
    gets everything moved, or traffic, singletons and active slot as they were.
   */
  ghost predicate DeployOutcome(
    env: Environment, before: Machine, t: Target, after: Machine, ok: bool, ref: string)
  {
    && DeployOrder(env, before, t, after)
    && (ok ==> DeploySuccess(env, before, t, after, ref))
    && (!t.blueGreen ==> after.world.running == before.world.running && after.world.slots == before.world.slots)
    && (Accepted(t) && AtMostOneActive(before.world.slots) && ok ==>
          && ref != ""
          && after.world.slots.At(NextColor(ActiveColor(before.world.slots))) == Some(Slot(Active, ref, t.deployment)))
    && (forall c: Color ::
          Accepted(t) && Reliable(env) && CanServe(before.world, t) && Settled(before.world, t.singletons, c) ==>
            DeploySettles(before.world, t, c, after.world, ok))
  }

  predicate DeploySettles(before: World, t: Target, c: Color, after: World, ok: bool) {
    if ok then Settled(after, t.singletons, Other(c))
    else after == before.(slots := after.slots) && Settled(after, t.singletons, c)
  }

  lemma DeployOrderMeets(env: Environment, m: Machine, t: Target)
    ensures DeployOrder(env, m, t, Deploy(env, m, t).m)
  {
    var r := Deploy(env, m, t).m;
    DeployMovesAfterBuild(env, m, t);
    if t.blueGreen {
      forall i | |m.trace| <= i < |r.trace| && Moves(r.trace[i].command)
        ensures StartedHealthyBefore(env, r.trace, |m.trace|, i, TargetColor(t, m.world).value, t.singletons)
      {
        DeployChecksHealthFirst(env, m, t, i);
      }
    }
  }

  lemma DeploySuccessMeets(env: Environment, m: Machine, t: Target)
    requires Deploy(env, m, t).ok
    ensures DeploySuccess(env, m, t, Deploy(env, m, t).m, Deploy(env, m, t).ref)
  {
    DeployReference(env, m, t);
    if DistinctRoutes(m.world.routes) {
      DeployRan(env, m, t);
      if CanServe(m.world, t) {
        DeployAddresses(env, m, t);
      }
    }
  }

  lemma DeployMeets(env: Environment, m: Machine, t: Target)
    ensures var r := Deploy(env, m, t); DeployOutcome(env, m, t, r.m, r.ok, r.ref)
  {
    var r := Deploy(env, m, t);
    DeployOrderMeets(env, m, t);
    StandaloneKeepsSite(env, m, t);
    if r.ok {
      DeploySuccessMeets(env, m, t);
    }
    if Accepted(t) && AtMostOneActive(m.world.slots) {
      SuccessOwnsTheActiveSlot(env, m, t);
    }
    forall c: Color | Accepted(t) && Reliable(env) && CanServe(m.world, t) && Settled(m.world, t.singletons, c)
      ensures DeploySettles(m.world, t, c, r.m.world, r.ok)
    {
      DeployAllOrNothing(env, m, t, c);
    }
  }

  /**
    What a caller of Rollback is promised: in any environment nothing moves before
    the standby colour was found healthy, and success means the plan and the cutover
    were followed and the routes are at that colour's columns; from a settled site a
    reliable environment settles the standby colour or changes nothing at all.
   */
  ghost predicate RollbackOutcome(env: Environment, before: Machine, t: Target, after: Machine, ok: bool) {
    && MovesAfter(env, before, after, PlanScript(t))
    && (t.blueGreen ==>
          forall i | |before.trace| <= i < |after.trace| && Moves(after.trace[i].command) ::
            HealthyBefore(env, after.trace, |before.trace|, i))
    && (DistinctRoutes(before.world.routes) && ok ==> exists c :: RolledBackTo(env, before, t, after, c))
    && (t.blueGreen && Reliable(env) && RollbackCanFinish(env, t.singletons) && CanServe(before.world, t) ==>
          forall c: Color :: Settled(before.world, t.singletons, c) ==>
            if ok then Settled(after.world, t.singletons, Other(c)) else after.world == before.world)
  }

  ghost predicate RolledBackTo(env: Environment, before: Machine, t: Target, after: Machine, to: Color)
    requires DistinctRoutes(before.world.routes)
  {
    var from := if t.singletons == {} then None else ActiveColor(before.world.slots);
    && IsStandby(before.world.slots.At(to))
    && (IsStandby(before.world.slots.At(Newest(env, before))) ==> to == Newest(env, before))
    && Ran(env, before, after, PlanScript(t) + CutoverScript(t, before.world.routes, from, to, true, true))
    && (CanServe(before.world, t) ==> Addressed(before.world.routes, after.world, Some(to)))
  }

  /** The colour that the query for the newest standby slot names; it is the run's second command. */
  function Newest(env: Environment, before: Machine): Color {
    if env(|before.trace| + 1, Check(LoadStandbySlot, false)).text == "green" then Green else Blue
  }

  lemma PlanTakesNewest(env: Environment, m: Machine, t: Target)
    requires PlanRollback(env, m, t).ok
    ensures IsStandby(m.world.slots.At(Newest(env, m))) ==> PlanRollback(env, m, t).to == Newest(env, m)
  {
    var connected := Exec(env, m, Check(Connect, false));
    assert Answer(env, connected, Check(LoadStandbySlot, false)) == env(|m.trace| + 1, Check(LoadStandbySlot, false));
  }

  lemma RollbackSuccess(env: Environment, m: Machine, t: Target) returns (to: Color)
    requires DistinctRoutes(m.world.routes) && Rollback(env, m, t).ok
    ensures RolledBackTo(env, m, t, Rollback(env, m, t).m, to)
  {
    to := RollbackRan(env, m, t);
    PlanTakesNewest(env, m, t);
    if CanServe(m.world, t) {
      RollbackAddresses(env, m, t);
    }
  }

  lemma RollbackMeets(env: Environment, m: Machine, t: Target)
    ensures var r := Rollback(env, m, t); RollbackOutcome(env, m, t, r.m, r.ok)
  {
    var r := Rollback(env, m, t);
    RollbackMovesAfterPlan(env, m, t);
    if t.blueGreen {
      forall i | |m.trace| <= i < |r.m.trace| && Moves(r.m.trace[i].command)
        ensures HealthyBefore(env, r.m.trace, |m.trace|, i)
      {
        RollbackChecksHealthFirst(env, m, t, i);
      }
    }
    if DistinctRoutes(m.world.routes) && r.ok {
      var to := RollbackSuccess(env, m, t);
    }
    if t.blueGreen && Reliable(env) && RollbackCanFinish(env, t.singletons) && CanServe(m.world, t) {
      forall c: Color | Settled(m.world, t.singletons, c)
        ensures if r.ok then Settled(r.m.world, t.singletons, Other(c)) else r.m.world == m.world
      {
        RollbackAllOrNothing(env, m, t, c);
      }
    }
  }
}
