/** Whole histories: any number of deployments and rollbacks of one application, one after the other. */
module Runs {
  import opened Text
  import opened Site
  import opened Protocol
  import opened RouteMoves
  import opened Cutovers
  import opened Singletons

  // ---- slot statements alone ----

  datatype SlotStatement =
    | RecordSlot(color: Color, ref: string, deployment: nat)
    | ActivateSlot(color: Color)

  function Apply(slots: PerColor<Option<Slot>>, s: SlotStatement): PerColor<Option<Slot>> {
    match s
    case RecordSlot(color, ref, deployment) => slots.With(color, Some(Slot(Standby, ref, deployment)))
    case ActivateSlot(color) => Activated(slots, color)
  }

  function ApplyAll(slots: PerColor<Option<Slot>>, statements: seq<SlotStatement>): PerColor<Option<Slot>> {
    if statements == [] then slots
    else Apply(ApplyAll(slots, statements[..|statements| - 1]), statements[|statements| - 1])
  }

  /** Whatever the interleaving of slot statements, never two active slots, and only an activation makes one. */
  lemma {:induction false} SlotStatementsKeepOneActive(slots: PerColor<Option<Slot>>, statements: seq<SlotStatement>)
    requires AtMostOneActive(slots)
    ensures AtMostOneActive(ApplyAll(slots, statements))
    ensures statements != [] ==>
              var last := statements[|statements| - 1];
              last.ActivateSlot? && slots.At(last.color).Some? ==>
                ActiveColor(ApplyAll(slots, statements)) == Some(last.color)
    ensures forall c: Color :: slots.At(c).Some? ==> ApplyAll(slots, statements).At(c).Some?
  {
    if statements != [] {
      SlotStatementsKeepOneActive(slots, statements[..|statements| - 1]);
    }
  }

  // ---- the first deployment ----

  lemma {:induction false} SetRoutesServe(
    env: Environment, m: Machine, routes: seq<Route>, color: Option<Color>, undo: bool, i: nat)
    requires i <= |routes| && Prepared(routes, color) && DistinctRoutes(routes)
    requires forall j | 0 <= j < i ::
               routes[j].slug in m.world.served && m.world.served[routes[j].slug] == Upstream(routes[j], color).value
    ensures var r := SetRoutes(env, m, routes, color, undo, i);
            r.ok ==>
              && r.m.world.routes == m.world.routes
              && forall j | 0 <= j < |routes| ::
                   && routes[j].slug in r.m.world.served
                   && r.m.world.served[routes[j].slug] == Upstream(routes[j], color).value
    decreases |routes| - i
  {
    if i < |routes| {
      var put := Do(env, m, SetRoute(routes[i].slug, Upstream(routes[i], color).value, undo));
      if put.ok {
        SetRoutesServe(env, put.m, routes, color, undo, i + 1);
      }
    }
  }

  lemma PromotedServes(w: World, routes: seq<Route>, c: Color, missed: set<nat>)
    requires w.routes == routes && Prepared(routes, Some(c)) && DistinctRoutes(routes)
    requires Desired(routes, Some(c)).Keys !! missed
    requires forall j | 0 <= j < |routes| ::
               routes[j].slug in w.served && w.served[routes[j].slug] == Upstream(routes[j], Some(c)).value
    ensures var w' := w.(routes := Promoted(routes, Desired(routes, Some(c)), missed));
            DistinctRoutes(w'.routes) && RoutesAt(w', c)
  {
    var routes' := Promoted(routes, Desired(routes, Some(c)), missed);
    DesiredAt(routes, Some(c));
    forall i | 0 <= i < |routes| ensures routes'[i] == routes[i].(upstream := Upstream(routes[i], Some(c)).value) {
      assert routes[i].id in Desired(routes, Some(c)).Keys;
    }
  }

  lemma RecordRoutesServes(env: Environment, m: Machine, c: Color, undo: bool)
    requires DistinctRoutes(m.world.routes) && Prepared(m.world.routes, Some(c))
    requires forall j | 0 <= j < |m.world.routes| ::
               m.world.routes[j].slug in m.world.served
               && m.world.served[m.world.routes[j].slug] == Upstream(m.world.routes[j], Some(c)).value
    ensures var r := RecordRoutes(env, m, m.world.routes, Some(c), undo);
            r.ok ==> DistinctRoutes(r.m.world.routes) && RoutesAt(r.m.world, c)
  {
    var command := Promote(Desired(m.world.routes, Some(c)), undo);
    if command.desired.Keys !! Answer(env, m, command).missed {
      PromotedServes(m.world, m.world.routes, c, Answer(env, m, command).missed);
    }
  }

  /** Success of applyProxyRoutes means every route is recorded and served, whatever the environment. */
  lemma ApplyRoutesServes(env: Environment, m: Machine, t: Target, c: Color, undo: bool)
    requires DistinctRoutes(m.world.routes) && CanServe(m.world, t)
    ensures var r := ApplyRoutes(env, m, t, Some(c), undo);
            r.ok ==> DistinctRoutes(r.m.world.routes) && RoutesAt(r.m.world, c)
  {
    var listed := Do(env, m, Check(ListRoutes, undo));
    var routes := m.world.routes;
    if t.proxied && listed.ok {
      var prepared := PrepareRoutes(env, listed.m, routes, Some(c), undo);
      PrepareRoutesKeeps(env, listed.m, routes, Some(c), undo);
      if prepared.ok {
        PrepareRoutesChecks(env, listed.m, routes, Some(c), undo);
        SetRoutesServe(env, prepared.m, routes, Some(c), undo, 0);
        var put := SetRoutes(env, prepared.m, routes, Some(c), undo, 0);
        if put.ok && routes != [] {
          RecordRoutesServes(env, put.m, c, undo);
        }
      }
    }
  }

  lemma CutoverFirst(env: Environment, m: Machine, t: Target, to: Color, rollback: bool)
    requires t.blueGreen && CanServe(m.world, t) && DistinctRoutes(m.world.routes)
    requires m.world.slots.At(to).Some?
    ensures var r := Cutover(env, m, t, None, to, true, rollback);
            if !r.ok then r.m.world.slots == m.world.slots
            else
              && DistinctRoutes(r.m.world.routes) && RoutesAt(r.m.world, to)
              && t.singletons <= r.m.world.running.At(to)
              && r.m.world.slots == Activated(m.world.slots, to)
  {
    var switched := Switch(env, m, t, None, to);
    SwitchFirst(env, m, t, to);
    if switched.ok {
      var applied := ApplyRoutes(env, switched.m, t, Some(to), false);
      ApplyRoutesServes(env, switched.m, t, to, false);
      ApplyRoutesSteady(env, switched.m, t, Some(to), false);
      RestoreOnlyRuns(env, applied.m, t, to, None);
      RestoreOnlyRuns(env, Exec(env, applied.m, Activate(to, rollback)), t, to, None);
    }
  }

  lemma RestoreOnlyRuns(env: Environment, m: Machine, t: Target, from: Color, to: Option<Color>)
    ensures var r := Restore(env, m, t, Some(from), to); r.m.world == m.world.(running := r.m.world.running)
  {
  }

  lemma SwitchFirst(env: Environment, m: Machine, t: Target, to: Color)
    requires t.blueGreen
    ensures var r := Switch(env, m, t, None, to);
            r.m.world == m.world.(running := r.m.world.running) && (r.ok ==> t.singletons <= r.m.world.running.At(to))
  {
  }

  // ---- the invariant over all runs ----

  /** Between runs: once a slot is active everything agrees on its colour; before that green is idle. */
  predicate Agreed(w: World, services: set<string>) {
    && DistinctRoutes(w.routes)
    && AtMostOneActive(w.slots)
    && NoOverlap(w, services)
    && match ActiveColor(w.slots)
       case Some(c) => Settled(w, services, c)
       case None => w.running.green !! services
  }

  // ---- whose slot is active ----

  /** Moving singletons and routes leaves the slots alone; a successful cutover changes them by its activation only. */
  lemma CutoverSlots(
    env: Environment, m: Machine, t: Target, from: Option<Color>, to: Color, activate: bool, rollback: bool)
    ensures var r := Cutover(env, m, t, from, to, activate, rollback);
            r.m.world.slots == if r.ok && activate then Activated(m.world.slots, to) else m.world.slots
  {
    var switched := Switch(env, m, t, from, to);
    SwitchKeepsSlots(env, m, t, from, to);
    if switched.ok {
      var applied := ApplyRoutes(env, switched.m, t, Some(to), false);
      ApplyRoutesSteady(env, switched.m, t, Some(to), false);
      RestoreOnlyRuns(env, applied.m, t, to, from);
      var activated := Exec(env, applied.m, Activate(to, rollback));
      var back := if from.Some? then ApplyRoutes(env, activated, t, from, true).m else activated;
      ApplyRoutesSteady(env, activated, t, from, true);
      RestoreOnlyRuns(env, back, t, to, from);
    }
  }

  lemma SwitchKeepsSlots(env: Environment, m: Machine, t: Target, from: Option<Color>, to: Color)
    ensures Switch(env, m, t, from, to).m.world.slots == m.world.slots
  {
  }

  /**
    In every environment and from every site with at most one active slot, an
    accepted deployment that succeeds has a rollback reference, and leaves exactly
    one slot active: the next colour's, recorded by this deployment.
   */
  lemma SuccessOwnsTheActiveSlot(env: Environment, m: Machine, t: Target)
    requires Accepted(t) && AtMostOneActive(m.world.slots)
    ensures var r := Deploy(env, m, t);
            var color := NextColor(ActiveColor(m.world.slots));
            r.ok ==>
              && r.ref != ""
              && AtMostOneActive(r.m.world.slots) && ActiveColor(r.m.world.slots) == Some(color)
              && r.m.world.slots.At(color) == Some(Slot(Active, r.ref, t.deployment))
  {
    var current := ActiveColor(m.world.slots);
    var color := NextColor(current);
    var checked := Checks(env, m, DeployChecks(t));
    var built := RunSteps(env, checked.m, RemoteSteps(t, Some(color)), t.commit);
    AcceptedHasRef(env, checked.m, t, color);
    var ref := RollbackRef(t, built.commit);
    var recorded := Exec(env, built.m, UpsertSlot(color, ref, t.deployment));
    CutoverSlots(env, recorded, t, current, color, true, false);
  }

  lemma DeployFirst(env: Environment, m: Machine, t: Target)
    requires Accepted(t) && CanServe(m.world, t) && DistinctRoutes(m.world.routes)
    requires ActiveColor(m.world.slots).None?
    ensures var r := Deploy(env, m, t);
            if !r.ok then ActiveColor(r.m.world.slots).None?
            else
              && DistinctRoutes(r.m.world.routes) && RoutesAt(r.m.world, Blue)
              && t.singletons <= r.m.world.running.blue
              && AtMostOneActive(r.m.world.slots) && ActiveColor(r.m.world.slots) == Some(Blue)
              && r.ref != "" && r.m.world.slots.blue == Some(Slot(Active, r.ref, t.deployment))
  {
    var checked := Checks(env, m, DeployChecks(t));
    ChecksKeep(env, m, DeployChecks(t));
    if checked.ok {
      RemoteStepsOnlyBuild(t, Some(Blue));
      RunStepsClear(env, checked.m, m.world, RemoteSteps(t, Some(Blue)), t.commit, Some(Blue), t.singletons);
      AcceptedHasRef(env, checked.m, t, Blue);
      var built := RunSteps(env, checked.m, RemoteSteps(t, Some(Blue)), t.commit);
      if built.ok {
        var recorded := Do(env, built.m, UpsertSlot(Blue, RollbackRef(t, built.commit), t.deployment));
        if recorded.ok {
          CutoverFirst(env, recorded.m, t, Blue, false);
        }
      }
    }
  }

  lemma DeployKeepsAgreement(env: Environment, m: Machine, t: Target)
    requires Reliable(env) && Accepted(t) && CanServe(m.world, t) && Agreed(m.world, t.singletons)
    ensures Agreed(Deploy(env, m, t).m.world, t.singletons)
    ensures Deploy(env, m, t).ok ==>
      ActiveColor(Deploy(env, m, t).m.world.slots) == Some(NextColor(ActiveColor(m.world.slots)))
  {
    var r := Deploy(env, m, t);
    UndoCoversStops(env);
    DeployWatched(env, m, t);
    var current := ActiveColor(m.world.slots);
    if current.Some? {
      DeployAllOrNothing(env, m, t, current.value);
    } else {
      DeployFirst(env, m, t);
      SameRowsDistinct(m.world.routes, r.m.world.routes);
    }
  }

  lemma UndoCoversStops(env: Environment)
    requires UndoSucceeds(env)
    ensures UndoStopsStop(env)
  {
    forall n: nat, c: Command | c.Stop? && c.undo ensures env(n, c).ok {
      assert IsUndo(c);
    }
  }

  /** A rollback without singletons cannot put its routes back, so its activation must not fail. */
  ghost predicate RollbackCanFinish(env: Environment, services: set<string>) {
    services == {} ==> forall n: nat, c: Command :: c.Activate? && c.rollback ==> env(n, c).ok
  }

  lemma NothingToSwitch(env: Environment, m: Machine, t: Target, to: Color)
    requires t.singletons == {}
    ensures var applied := ApplyRoutes(env, m, t, Some(to), false);
            var r := Cutover(env, m, t, None, to, true, true);
            && (!applied.ok ==> r == Ended(applied.m, false))
            && (applied.ok && Do(env, applied.m, Activate(to, true)).ok ==> r == Do(env, applied.m, Activate(to, true)))
  {
  }

  /** Without singletons a rollback does not know the previous colour. */
  lemma CutoverWithoutSingletons(env: Environment, m: Machine, t: Target, c: Color)
    requires Reliable(env) && RollbackCanFinish(env, {}) && t.blueGreen && CanServe(m.world, t) && t.singletons == {}
    requires Settled(m.world, {}, c) && IsStandby(m.world.slots.At(Other(c)))
    ensures var r := Cutover(env, m, t, None, Other(c), true, true);
            if !r.ok then r.m.world == m.world
            else Settled(r.m.world, {}, Other(c)) && r.m.world.slots == Activated(m.world.slots, Other(c))
  {
    ApplyRoutesOutcome(env, m, t, Other(c));
    var applied := ApplyRoutes(env, m, t, Some(Other(c)), false);
    NothingToSwitch(env, m, t, Other(c));
    if applied.ok {
      var activate := Activate(Other(c), true);
      assert Answer(env, applied.m, activate).ok;
      ActivationSettles(applied.m.world, {}, c);
    }
  }

  /** With a previous colour a rollback is all or nothing too. */
  lemma RollbackAllOrNothing(env: Environment, m: Machine, t: Target, c: Color)
    requires Reliable(env) && RollbackCanFinish(env, t.singletons) && t.blueGreen && CanServe(m.world, t)
    requires Settled(m.world, t.singletons, c)
    ensures var r := Rollback(env, m, t);
            if !r.ok then r.m.world == m.world
            else Settled(r.m.world, t.singletons, Other(c)) && r.m.world.slots == Activated(m.world.slots, Other(c))
  {
    var p := PlanRollback(env, m, t);
    PlanRollbackSteady(env, m, t);
    if p.ok {
      assert p.to == Other(c);
      if t.singletons == {} {
        CutoverWithoutSingletons(env, p.m, t, c);
      } else {
        CutoverAllOrNothing(env, p.m, t, c, true);
      }
    }
  }

  lemma RollbackKeepsAgreement(env: Environment, m: Machine, t: Target)
    requires Reliable(env) && RollbackCanFinish(env, t.singletons) && t.blueGreen && CanServe(m.world, t)
    requires Agreed(m.world, t.singletons)
    ensures Agreed(Rollback(env, m, t).m.world, t.singletons)
  {
    UndoCoversStops(env);
    RollbackWatched(env, m, t);
    var current := ActiveColor(m.world.slots);
    if current.Some? {
      RollbackAllOrNothing(env, m, t, current.value);
    } else if t.singletons == {} {
      var p := PlanRollback(env, m, t);
      PlanRollbackSteady(env, m, t);
      if p.ok {
        CutoverFirst(env, p.m, t, p.to, true);
        SameRowsDistinct(m.world.routes, Rollback(env, m, t).m.world.routes);
      }
    }
  }

  lemma SameRowsDistinct(a: seq<Route>, b: seq<Route>)
    requires SameRows(a, b) && DistinctRoutes(a)
    ensures DistinctRoutes(b)
  {
  }

  // ---- histories ----

  datatype Request = Deployment(t: Target) | RollbackRequest(t: Target)

  function RunOne(env: Environment, m: Machine, q: Request): (r: Machine)
    ensures m.trace <= r.trace
  {
    if q.Deployment? then Deploy(env, m, q.t).m else Rollback(env, m, q.t).m
  }

  function RunAll(env: Environment, m: Machine, requests: seq<Request>): (r: Machine)
    ensures m.trace <= r.trace
    decreases |requests|
  {
    if requests == [] then m else RunOne(env, RunAll(env, m, requests[..|requests| - 1]), requests[|requests| - 1])
  }

  /** Requests for one application whose singleton services and proxy do not change meanwhile. */
  predicate Admissible(requests: seq<Request>, services: set<string>, proxied: bool) {
    forall i | 0 <= i < |requests| ::
      var t := requests[i].t;
      t.singletons == services && t.proxied == proxied && t.blueGreen && (requests[i].Deployment? ==> Accepted(t))
  }

  /**
    A rebuild is of the next colour. With an active slot that is the other colour,
    and every route is recorded and served at the active one's upstream.
   */
  predicate Undisturbed(e: Event) {
    e.command.StartStack? && e.command.color.Some? ==>
      && e.command.color.value == NextColor(ActiveColor(e.before.slots))
      && (ActiveColor(e.before.slots).Some? ==>
            && e.command.color.value == Other(ActiveColor(e.before.slots).value)
            && RoutesAt(e.before, ActiveColor(e.before.slots).value))
  }

  /** Some route is served at its upstream of this colour. */
  predicate ServesAt(w: World, c: Color) {
    exists i :: 0 <= i < |w.routes| && ServedBy(w, i, c)
  }

  predicate ServedBy(w: World, i: nat, c: Color)
    requires i < |w.routes|
  {
    w.routes[i].slug in w.served && Upstream(w.routes[i], Some(c)) == Some(w.served[w.routes[i].slug])
  }

  /** Some route has the same upstream for both colours. */
  predicate SharesUpstream(routes: seq<Route>) {
    exists i :: 0 <= i < |routes| && Upstream(routes[i], Some(Blue)) == Upstream(routes[i], Some(Green))
  }

  /**
    When a rebuild hits a colour that serves traffic: without an active slot exactly
    if some route is served at its blue upstream, which a first deployment whose
    activation failed leaves behind; with one exactly if some route has the same
    upstream for both colours.
   */
  lemma RebuildHitsServingExactly(e: Event)
    requires Undisturbed(e) && e.command.StartStack? && e.command.color.Some?
    ensures ServesAt(e.before, e.command.color.value)
            <==> if ActiveColor(e.before.slots).None? then ServesAt(e.before, Blue) else SharesUpstream(e.before.routes)
  {
    var w := e.before;
    if ActiveColor(w.slots).Some? {
      var c := ActiveColor(w.slots).value;
      forall i | 0 <= i < |w.routes|
        ensures ServedBy(w, i, Other(c)) <==> Upstream(w.routes[i], Some(Blue)) == Upstream(w.routes[i], Some(Green))
      {
        assert Upstream(w.routes[i], Some(c)) == Some(w.routes[i].upstream);
      }
    }
  }

  /**
    Over every history, between runs traffic, singletons and slot agree; at every
    state of it no singleton runs twice; and every rebuild is of the next colour,
    which once a slot is active is the one the routes are not at.
   */
  lemma {:induction false} HistoryKeepsAgreement(
    env: Environment, m: Machine, requests: seq<Request>, services: set<string>, proxied: bool)
    requires Reliable(env) && RollbackCanFinish(env, services)
    requires Agreed(m.world, services) && Admissible(requests, services, proxied) && (proxied || m.world.routes == [])
    ensures var r := RunAll(env, m, requests);
            && Agreed(r.world, services)
            && SameRows(m.world.routes, r.world.routes)
            && forall i | |m.trace| <= i < |r.trace| :: NoOverlap(r.trace[i].after, services) && Undisturbed(r.trace[i])
    decreases |requests|
  {
    if requests != [] {
      var q := requests[|requests| - 1];
      HistoryKeepsAgreement(env, m, requests[..|requests| - 1], services, proxied);
      var before := RunAll(env, m, requests[..|requests| - 1]);
      var r := RunOne(env, before, q);
      UndoCoversStops(env);
      if q.Deployment? {
        DeployKeepsAgreement(env, before, q.t);
        DeployWatched(env, before, q.t);
      } else {
        RollbackKeepsAgreement(env, before, q.t);
        RollbackWatched(env, before, q.t);
      }
      forall i | |m.trace| <= i < |r.trace| ensures NoOverlap(r.trace[i].after, services) && Undisturbed(r.trace[i]) {
        if i < |before.trace| {
          assert r.trace[i] == before.trace[i];
        } else {
          SafeRebuildUndisturbed(r.trace[i], before.world, services);
        }
      }
    }
  }

  lemma SafeRebuildUndisturbed(e: Event, base: World, services: set<string>)
    requires SafeRebuild(e, base) && Agreed(base, services)
    ensures Undisturbed(e)
  {
  }
}
