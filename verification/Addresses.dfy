/** Which address a colour stands for: what is served and recorded, said by the columns of the route rows. */
module Addresses {
  import opened Text
  import opened Site
  import opened Protocol
  import opened RouteMoves
  import opened Cutovers
  import opened Singletons
  import opened Runs

  /** The column that a colour names is blank. */
  predicate Blank(r: Route, color: Option<Color>) {
    (color == Some(Blue) && Trim(r.blue) == "") || (color == Some(Green) && Trim(r.green) == "")
  }

  /** The row's address for a colour: its trimmed blue or green column, and without a colour what it records. */
  function AddressOf(r: Route, color: Option<Color>): string {
    match color
    case Some(Blue) => Trim(r.blue)
    case Some(Green) => Trim(r.green)
    case None => r.upstream
  }

  /** Every row of `before` is still there, and is recorded and served at its address for the colour. */
  predicate Addressed(before: seq<Route>, w: World, color: Option<Color>) {
    && |w.routes| == |before|
    && forall i | 0 <= i < |before| ::
         var a, b := before[i], w.routes[i];
         && b == a.(upstream := b.upstream)
         && a.slug in w.served && w.served[a.slug] == b.upstream
         && (color == Some(Blue) ==> b.upstream == Trim(a.blue) && Trim(a.blue) != "")
         && (color == Some(Green) ==> b.upstream == Trim(a.green) && Trim(a.green) != "")
         && (color == None ==> b.upstream == a.upstream)
  }

  /** A route has an upstream exactly when the column of its colour is not blank. */
  lemma UpstreamExactly(r: Route, color: Option<Color>)
    ensures Upstream(r, color) == if Blank(r, color) then None else Some(AddressOf(r, color))
  {
  }

  lemma PreparedExactly(routes: seq<Route>, color: Option<Color>)
    ensures Prepared(routes, color) <==> forall i | 0 <= i < |routes| :: !Blank(routes[i], color)
  {
    forall i | 0 <= i < |routes| ensures Upstream(routes[i], color).Some? <==> !Blank(routes[i], color) {
      UpstreamExactly(routes[i], color);
    }
  }

  lemma PromotedAddresses(w: World, color: Option<Color>, missed: set<nat>)
    requires Prepared(w.routes, color) && DistinctRoutes(w.routes) && Desired(w.routes, color).Keys !! missed
    requires forall j | 0 <= j < |w.routes| ::
               w.routes[j].slug in w.served && w.served[w.routes[j].slug] == Upstream(w.routes[j], color).value
    ensures Addressed(w.routes, w.(routes := Promoted(w.routes, Desired(w.routes, color), missed)), color)
  {
    var after := Promoted(w.routes, Desired(w.routes, color), missed);
    DesiredAt(w.routes, color);
    forall i | 0 <= i < |w.routes|
      ensures after[i] == w.routes[i].(upstream := AddressOf(w.routes[i], color)) && !Blank(w.routes[i], color)
    {
      assert w.routes[i].id in Desired(w.routes, color).Keys;
      UpstreamExactly(w.routes[i], color);
    }
  }

  lemma RecordRoutesAddresses(env: Environment, m: Machine, color: Option<Color>, undo: bool)
    requires DistinctRoutes(m.world.routes) && Prepared(m.world.routes, color)
    requires forall j | 0 <= j < |m.world.routes| ::
               m.world.routes[j].slug in m.world.served
               && m.world.served[m.world.routes[j].slug] == Upstream(m.world.routes[j], color).value
    ensures var r := RecordRoutes(env, m, m.world.routes, color, undo);
            r.ok ==> Addressed(m.world.routes, r.m.world, color)
  {
    var command := Promote(Desired(m.world.routes, color), undo);
    if command.desired.Keys !! Answer(env, m, command).missed {
      PromotedAddresses(m.world, color, Answer(env, m, command).missed);
    }
  }

  /**
    In any environment, after routes were applied with success each of them is
    recorded and served at the address its row gives for the colour.
   */
  lemma ApplyRoutesAddresses(env: Environment, m: Machine, t: Target, color: Option<Color>, undo: bool)
    requires DistinctRoutes(m.world.routes) && CanServe(m.world, t)
    ensures var r := ApplyRoutes(env, m, t, color, undo);
            r.ok ==> Addressed(m.world.routes, r.m.world, color)
  {
    var listed := Do(env, m, Check(ListRoutes, undo));
    var routes := m.world.routes;
    if t.proxied && listed.ok {
      var prepared := PrepareRoutes(env, listed.m, routes, color, undo);
      PrepareRoutesKeeps(env, listed.m, routes, color, undo);
      if prepared.ok {
        PrepareRoutesChecks(env, listed.m, routes, color, undo);
        SetRoutesServe(env, prepared.m, routes, color, undo, 0);
        var put := SetRoutes(env, prepared.m, routes, color, undo, 0);
        if put.ok && routes != [] {
          RecordRoutesAddresses(env, put.m, color, undo);
        }
      }
    }
  }

  lemma {:induction false} PrepareRoutesExactly(
    env: Environment, m: Machine, routes: seq<Route>, color: Option<Color>, undo: bool)
    ensures (exists i :: 0 <= i < |routes| && Blank(routes[i], color)) ==>
              !PrepareRoutes(env, m, routes, color, undo).ok
    ensures (forall n: nat :: env(n, Check(PrepareRoute, undo)).ok) ==>
              (PrepareRoutes(env, m, routes, color, undo).ok <==>
               forall i | 0 <= i < |routes| :: !Blank(routes[i], color))
    decreases |routes|
  {
    if routes != [] {
      UpstreamExactly(routes[0], color);
      var prepared := Exec(env, m, Check(PrepareRoute, undo));
      PrepareRoutesExactly(env, prepared, routes[1..], color, undo);
      assert forall i | 1 <= i < |routes| :: routes[i] == routes[1..][i - 1];
      if forall i | 0 <= i < |routes[1..]| :: !Blank(routes[1..][i], color) {
        assert forall i | 1 <= i < |routes| :: !Blank(routes[i], color);
      }
    }
  }

  /** A single blank column refuses the whole set before anything is moved. */
  lemma BlankIsRefused(env: Environment, m: Machine, t: Target, color: Option<Color>, undo: bool)
    requires t.proxied && exists i :: 0 <= i < |m.world.routes| && Blank(m.world.routes[i], color)
    ensures var r := ApplyRoutes(env, m, t, color, undo); !r.ok && r.m.world == m.world
  {
    var listed := Exec(env, m, Check(ListRoutes, undo));
    PrepareRoutesExactly(env, listed, m.world.routes, color, undo);
    PrepareRoutesKeeps(env, listed, m.world.routes, color, undo);
  }

  /** A cutover that succeeds has every route at its address for the new colour. */
  lemma CutoverAddresses(
    env: Environment, m: Machine, t: Target, from: Option<Color>, to: Color, activate: bool, rollback: bool)
    requires DistinctRoutes(m.world.routes) && CanServe(m.world, t)
    ensures var r := Cutover(env, m, t, from, to, activate, rollback);
            r.ok ==> Addressed(m.world.routes, r.m.world, Some(to))
  {
    var switched := Switch(env, m, t, from, to);
    SwitchKeepsTraffic(env, m, t, from, to);
    if switched.ok {
      ApplyRoutesAddresses(env, switched.m, t, Some(to), false);
    }
  }

  lemma RestoreKeepsTraffic(env: Environment, m: Machine, t: Target, from: Color, to: Option<Color>)
    ensures SameSite(Restore(env, m, t, Some(from), to).m.world, m.world)
  {
  }

  lemma StartNewKeepsTraffic(env: Environment, m: Machine, t: Target, from: Option<Color>, to: Color)
    ensures SameSite(StartNew(env, m, t, from, to).m.world, m.world)
  {
    var started := Exec(env, m, Start(to, t.singletons, false));
    RestoreKeepsTraffic(env, started, t, to, from);
    RestoreKeepsTraffic(env, Exec(env, started, Verify(to, t.singletons)), t, to, from);
  }

  /** Nothing but the running singletons differs. */
  predicate SameSite(a: World, b: World) {
    a.routes == b.routes && a.served == b.served && a.slots == b.slots
  }

  lemma SwitchKeepsTraffic(env: Environment, m: Machine, t: Target, from: Option<Color>, to: Color)
    ensures SameSite(Switch(env, m, t, from, to).m.world, m.world)
  {
    var stopped := if from.Some? then Exec(env, m, Stop(from.value, t.singletons, false)) else m;
    assert SameSite(stopped.world, m.world);
    StartNewKeepsTraffic(env, stopped, t, from, to);
  }

  /** The colour a deployment goes to: green after blue, and otherwise blue; outside blue/green none. */
  function TargetColor(t: Target, w: World): Option<Color> {
    if !t.blueGreen then None else if ActiveColor(w.slots) == Some(Blue) then Some(Green) else Some(Blue)
  }

  lemma BuildKeepsSite(env: Environment, m: Machine, t: Target)
    ensures var checked := Checks(env, m, DeployChecks(t)).m;
            var built := RunSteps(env, checked, RemoteSteps(t, TargetColor(t, m.world)), t.commit).m;
            && checked.world == m.world
            && built.world == m.world.(running := built.world.running)
            && (!t.blueGreen ==> built.world == m.world)
  {
    var color := TargetColor(t, m.world);
    ChecksKeep(env, m, DeployChecks(t));
    RemoteStepsOnlyBuild(t, color);
    RunStepsClear(env, Checks(env, m, DeployChecks(t)).m, m.world, RemoteSteps(t, color), t.commit, color,
                  if color.Some? then t.singletons else {});
  }

  /** Outside blue/green a deployment never touches singletons or slots. */
  lemma StandaloneKeepsSite(env: Environment, m: Machine, t: Target)
    ensures var w := Deploy(env, m, t).m.world;
            !t.blueGreen ==> w.running == m.world.running && w.slots == m.world.slots
  {
    if !t.blueGreen {
      BuildKeepsSite(env, m, t);
      var built := RunSteps(env, Checks(env, m, DeployChecks(t)).m, RemoteSteps(t, None), t.commit);
      ApplyRoutesSteady(env, built.m, t, None, false);
    }
  }

  /**
    A deployment that succeeds, in any environment, has every route recorded and
    served at its row's address for the target colour, and outside blue/green at
    the address recorded before.
   */
  lemma DeployAddresses(env: Environment, m: Machine, t: Target)
    requires DistinctRoutes(m.world.routes) && CanServe(m.world, t) && Deploy(env, m, t).ok
    ensures Addressed(m.world.routes, Deploy(env, m, t).m.world, TargetColor(t, m.world))
  {
    BuildKeepsSite(env, m, t);
    var color := TargetColor(t, m.world);
    var built := RunSteps(env, Checks(env, m, DeployChecks(t)).m, RemoteSteps(t, color), t.commit);
    if !t.blueGreen {
      ApplyRoutesAddresses(env, built.m, t, None, false);
    } else {
      RecordedAddresses(env, built.m, t, ActiveColor(m.world.slots), color.value, RollbackRef(t, built.commit));
    }
  }

  lemma RecordedAddresses(env: Environment, m: Machine, t: Target, from: Option<Color>, to: Color, ref: string)
    requires DistinctRoutes(m.world.routes) && CanServe(m.world, t)
    ensures var recorded := if ref != "" then Exec(env, m, UpsertSlot(to, ref, t.deployment)) else m;
            var r := Cutover(env, recorded, t, from, to, ref != "", false);
            r.ok ==> Addressed(m.world.routes, r.m.world, Some(to))
  {
    var recorded := if ref != "" then Exec(env, m, UpsertSlot(to, ref, t.deployment)) else m;
    CutoverAddresses(env, recorded, t, from, to, ref != "", false);
  }

  /** A rollback that succeeds has every route at its row's address for the standby colour it went to. */
  lemma RollbackAddresses(env: Environment, m: Machine, t: Target)
    requires DistinctRoutes(m.world.routes) && CanServe(m.world, t) && Rollback(env, m, t).ok
    ensures var to := PlanRollback(env, m, t).to;
            IsStandby(m.world.slots.At(to)) && Addressed(m.world.routes, Rollback(env, m, t).m.world, Some(to))
  {
    var p := PlanRollback(env, m, t);
    PlanRollbackSteady(env, m, t);
    CutoverAddresses(env, p.m, t, p.from, p.to, true, true);
  }
}
