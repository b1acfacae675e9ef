/** Runner as the object it is: methods that change the site step by step, each doing exactly what Protocol says. */
module RunnerObject {
  import opened Text
  import opened Site
  import opened Protocol
  import opened RouteMoves
  import opened Scripts
  import opened Outcomes

  class Runner {
    const env: Environment
    var routes: seq<Route>
    var served: map<string, string>
    var running: PerColor<set<string>>
    var slots: PerColor<Option<Slot>>
    var trace: seq<Event>

    constructor (env: Environment, world: World)
      ensures this.env == env && Snapshot() == Machine(world, [])
    {
      this.env := env;
      routes, served, running, slots := world.routes, world.served, world.running, world.slots;
      trace := [];
    }

    function Snapshot(): Machine
      reads this
    {
      Machine(World(routes, served, running, slots), trace)
    }

    /** Issues one command or statement and records it. */
    method Issue(c: Command) returns (out: Outcome)
      modifies this
      ensures out == Answer(env, old(Snapshot()), c)
      ensures Snapshot() == Exec(env, old(Snapshot()), c)
    {
      out := env(|trace|, c);
      var before := World(routes, served, running, slots);
      var after := Effect(before, c, out);
      routes, served, running, slots := after.routes, after.served, after.running, after.slots;
      trace := trace + [Event(c, before, after)];
    }

    method CheckAll(whats: seq<Reading>) returns (ok: bool)
      modifies this
      ensures Ended(Snapshot(), ok) == Checks(env, old(Snapshot()), whats)
    {
      var i := 0;
      while i < |whats|
        invariant 0 <= i <= |whats|
        invariant Checks(env, old(Snapshot()), whats) == Checks(env, Snapshot(), whats[i..])
      {
        var out := Issue(Check(whats[i], false));
        if !out.ok {
          return false;
        }
        assert whats[i..][1..] == whats[i + 1..];
        i := i + 1;
      }
      return true;
    }

    method ResolveSourceCommit(commit: Option<string>) returns (ok: bool, pinned: Option<string>)
      modifies this
      ensures Stepped(Snapshot(), ok, pinned) == ResolveCommit(env, old(Snapshot()), commit)
      ensures ResolveOutcome(env, old(Snapshot()), commit, Snapshot(), ok, pinned)
    {
      ResolveMeets(env, Snapshot(), commit);
      pinned := commit;
      var read := Issue(Check(ReadCommit, false));
      var head := Trim(FirstLine(read.text));
      if !read.ok || !IsCommit(head) {
        return false, pinned;
      }
      var pin := Issue(Check(PinCommit, false));
      ok := pin.ok;
      if ok && commit.None? {
        pinned := Some(head);
      }
    }

    method RunRemoteSteps(steps: seq<Step>, commit: Option<string>) returns (ok: bool, pinned: Option<string>)
      modifies this
      ensures Stepped(Snapshot(), ok, pinned) == RunSteps(env, old(Snapshot()), steps, commit)
      ensures StepsOutcome(env, old(Snapshot()), steps, commit, Snapshot(), ok, pinned)
    {
      StepsMeet(env, Snapshot(), steps, commit);
      pinned := commit;
      var i := 0;
      while i < |steps|
        invariant 0 <= i <= |steps|
        invariant RunSteps(env, old(Snapshot()), steps, commit) == RunSteps(env, Snapshot(), steps[i..], pinned)
      {
        assert steps[i..][0] == steps[i] && steps[i..][1..] == steps[i + 1..];
        var out := Issue(steps[i].command);
        if !out.ok {
          return false, pinned;
        }
        if steps[i].resolvesCommit {
          var resolved;
          resolved, pinned := ResolveSourceCommit(pinned);
          if !resolved {
            return false, pinned;
          }
        }
        i := i + 1;
      }
      ok := true;
    }

    method RestoreSingletonServices(t: Target, from: Option<Color>, to: Option<Color>) returns (ok: bool)
      modifies this
      ensures Ended(Snapshot(), ok) == Restore(env, old(Snapshot()), t, from, to)
    {
      ok := true;
      if t.singletons == {} || !t.blueGreen {
        return;
      }
      if from.Some? {
        var out := Issue(Stop(from.value, t.singletons, true));
        ok := out.ok;
      }
      if to.Some? {
        var out := Issue(Start(to.value, t.singletons, true));
        ok := ok && out.ok;
      }
    }

    method SwitchSingletonServices(t: Target, from: Option<Color>, to: Color) returns (ok: bool)
      modifies this
      ensures Ended(Snapshot(), ok) == Switch(env, old(Snapshot()), t, from, to)
      ensures ok ==> Ran(env, old(Snapshot()), Snapshot(), SwitchScript(t, from, to))
    {
      SwitchMeets(env, Snapshot(), t, from, to);
      if t.singletons == {} || !t.blueGreen {
        return true;
      }
      if from.Some? {
        var stopped := Issue(Stop(from.value, t.singletons, false));
        if !stopped.ok {
          var _ := Issue(Start(from.value, t.singletons, true));
          return false;
        }
      }
      var started := Issue(Start(to, t.singletons, false));
      if !started.ok {
        var _ := RestoreSingletonServices(t, Some(to), from);
        return false;
      }
      var verified := Issue(Verify(to, t.singletons));
      if !verified.ok || !(t.singletons <= running.At(to)) {
        var _ := RestoreSingletonServices(t, Some(to), from);
        return false;
      }
      return true;
    }

    method RollbackProxyRoutes(applied: seq<Route>, n: nat)
      requires n <= |applied|
      modifies this
      ensures Snapshot() == UndoRoutes(env, old(Snapshot()), applied, n)
      ensures TookBack(old(Snapshot()), Snapshot(), applied, n)
    {
      UndoRoutesTakeBack(env, Snapshot(), applied, n);
      var index := n;
      while index > 0
        invariant 0 <= index <= n
        invariant UndoRoutes(env, old(Snapshot()), applied, n) == UndoRoutes(env, Snapshot(), applied, index)
      {
        index := index - 1;
        var _ := Issue(SetRoute(applied[index].slug, applied[index].upstream, true));
      }
    }

    method PrepareProxyRoutes(listed: seq<Route>, color: Option<Color>, undo: bool) returns (ok: bool)
      modifies this
      ensures Ended(Snapshot(), ok) == PrepareRoutes(env, old(Snapshot()), listed, color, undo)
      ensures ok ==> Prepared(listed, color)
      ensures PrepareOutcome(listed, color, ok)
    {
      PrepareMeets(env, Snapshot(), listed, color, undo);
      var i := 0;
      while i < |listed|
        invariant 0 <= i <= |listed|
        invariant Prepared(listed[..i], color)
        invariant PrepareRoutes(env, old(Snapshot()), listed, color, undo)
          == PrepareRoutes(env, Snapshot(), listed[i..], color, undo)
      {
        assert listed[i..][0] == listed[i] && listed[i..][1..] == listed[i + 1..];
        assert listed[..i + 1] == listed[..i] + [listed[i]];
        if Upstream(listed[i], color).None? {
          var _ := Issue(Check(MarkRouteFailed, false));
          return false;
        }
        var built := Issue(Check(PrepareRoute, undo));
        if !built.ok {
          var _ := Issue(Check(MarkRouteFailed, false));
          return false;
        }
        i := i + 1;
      }
      assert listed[..i] == listed;
      return true;
    }

    method SetProxyRoutes(listed: seq<Route>, color: Option<Color>, undo: bool) returns (ok: bool)
      requires Prepared(listed, color)
      modifies this
      ensures Ended(Snapshot(), ok) == SetRoutes(env, old(Snapshot()), listed, color, undo, 0)
      ensures ok && DistinctRoutes(listed) ==> ServedAtColumns(listed, served, color)
    {
      SetMeets(env, Snapshot(), listed, color, undo);
      var i := 0;
      while i < |listed|
        invariant 0 <= i <= |listed|
        invariant SetRoutes(env, old(Snapshot()), listed, color, undo, 0)
          == SetRoutes(env, Snapshot(), listed, color, undo, i)
      {
        var put := Issue(SetRoute(listed[i].slug, Upstream(listed[i], color).value, undo));
        if !put.ok {
          var _ := Issue(Check(MarkRouteFailed, false));
          RollbackProxyRoutes(listed, i);
          return false;
        }
        i := i + 1;
      }
      return true;
    }

    method ApplyProxyRoutes(t: Target, color: Option<Color>, undo: bool) returns (ok: bool)
      modifies this
      ensures Ended(Snapshot(), ok) == ApplyRoutes(env, old(Snapshot()), t, color, undo)
      ensures ApplyOutcome(env, old(Snapshot()), t, color, undo, Snapshot(), ok)
    {
      ApplyMeets(env, Snapshot(), t, color, undo);
      if !t.proxied {
        return true;
      }
      var list := Issue(Check(ListRoutes, undo));
      if !list.ok {
        return false;
      }
      var listed := routes;
      ok := PrepareProxyRoutes(listed, color, undo);
      if !ok {
        return;
      }
      ok := SetProxyRoutes(listed, color, undo);
      if !ok {
        return;
      }
      if listed != [] {
        var desired := DesiredUpstreams(listed, color);
        var promoted := Issue(Promote(desired, undo));
        if !promoted.ok || !(desired.Keys !! promoted.missed) {
          RollbackProxyRoutes(listed, |listed|);
          return false;
        }
      }
      return true;
    }

    /** The tail of deploy and of rollback. */
    method CutOver(t: Target, from: Option<Color>, to: Color, activate: bool, rollback: bool) returns (ok: bool)
      modifies this
      ensures Ended(Snapshot(), ok) == Cutover(env, old(Snapshot()), t, from, to, activate, rollback)
      ensures CutoverOutcome(env, old(Snapshot()), t, from, to, activate, rollback, Snapshot(), ok)
    {
      CutoverMeets(env, Snapshot(), t, from, to, activate, rollback);
      ok := SwitchSingletonServices(t, from, to);
      if !ok {
        return;
      }
      ok := ApplyProxyRoutes(t, Some(to), false);
      if !ok {
        var _ := RestoreSingletonServices(t, Some(to), from);
        return;
      }
      if activate {
        var activated := Issue(Activate(to, rollback));
        ok := activated.ok;
        if !ok {
          if from.Some? {
            var _ := ApplyProxyRoutes(t, from, true);
          }
          var _ := RestoreSingletonServices(t, Some(to), from);
        }
      }
    }

    method Deploy(t: Target) returns (ok: bool, ref: string)
      modifies this
      ensures Deployed(Snapshot(), ok, ref) == Protocol.Deploy(env, old(Snapshot()), t)
      ensures DeployOutcome(env, old(Snapshot()), t, Snapshot(), ok, ref)
    {
      DeployMeets(env, Snapshot(), t);
      ref := "";
      var current := if t.blueGreen then ActiveColor(slots) else None;
      ok := CheckAll(DeployChecks(t));
      if !ok {
        return;
      }
      var color := if t.blueGreen then Some(NextColor(current)) else None;
      var pinned;
      ok, pinned := RunRemoteSteps(RemoteSteps(t, color), t.commit);
      ref := RollbackRef(t, pinned);
      if !ok {
        return;
      }
      if !t.blueGreen {
        ok := ApplyProxyRoutes(t, None, false);
        return;
      }
      if ref != "" {
        var recorded := Issue(UpsertSlot(color.value, ref, t.deployment));
        ok := recorded.ok;
        if !ok {
          return;
        }
      }
      ok := CutOver(t, current, color.value, ref != "", false);
    }

    method Rollback(t: Target) returns (ok: bool)
      modifies this
      ensures Ended(Snapshot(), ok) == Protocol.Rollback(env, old(Snapshot()), t)
      ensures RollbackOutcome(env, old(Snapshot()), t, Snapshot(), ok)
    {
      RollbackMeets(env, Snapshot(), t);
      var connected := Issue(Check(Connect, false));
      if !connected.ok {
        return false;
      }
      var loaded := Issue(Check(LoadStandbySlot, false));
      var standby := StandbyColor(slots, if loaded.text == "green" then Green else Blue);
      if !loaded.ok || standby.None? {
        return false;
      }
      ok := CheckAll((if t.blueGreen then [LoadPorts, CheckHealth] else []) + [DecodeServices]);
      if !ok {
        return;
      }
      var active: Option<Color> := None;
      if t.singletons != {} {
        var slot := Issue(Check(LoadActiveSlot, false));
        active := ActiveColor(slots);
        if !slot.ok || active.None? {
          return false;
        }
        ok := CheckAll(if t.blueGreen then [LoadPorts] else []);
        if !ok {
          return;
        }
      }
      ok := CutOver(t, active, standby.value, true, true);
    }
  }

  /** The two parallel lists handed to PromoteProxyRoutes. */
  method DesiredUpstreams(routes: seq<Route>, color: Option<Color>) returns (desired: map<nat, string>)
    requires Prepared(routes, color)
    ensures desired == Desired(routes, color)
    ensures DistinctRoutes(routes) ==> desired == Wanted(routes, color)
  {
    if DistinctRoutes(routes) {
      DesiredIsWanted(routes, color);
    }
    desired := map[];
    for i := 0 to |routes|
      invariant desired == Desired(routes[..i], color)
    {
      assert routes[..i + 1][..i] == routes[..i];
      desired := desired[routes[i].id := Upstream(routes[i], color).value];
    }
    assert routes[..|routes|] == routes;
  }
}
