/**
  The blue/green run as a function of the environment's answers: what
  Runner.deploy and Runner.rollback do, command by command.
 */
module Protocol {
  import opened Text
  import opened Site

  /** The columns of GetDeploymentTarget a run branches on. */
  datatype Target = Target(
    deployment: nat,
    blueGreen: bool,
    imageRef: string,
    commit: Option<string>,
    repository: string,
    proxied: bool,
    singletons: set<string>,
    serviceFiles: nat)

  /** slotRollbackRef: the pinned image, otherwise the commit it was built from. */
  function RollbackRef(t: Target, commit: Option<string>): string {
    if Trim(t.imageRef) != "" then Trim(t.imageRef)
    else if commit.Some? then Trim(commit.value) else ""
  }

  predicate ShouldSync(t: Target) {
    && Trim(t.repository) != ""
    && (Trim(t.imageRef) == "" || (t.commit.Some? && Trim(t.commit.value) != ""))
  }

  /** nextDeploymentColors: blue first, afterwards the colour that is not active. */
  function NextColor(current: Option<Color>): Color {
    if current == Some(Blue) then Green else Blue
  }

  // ---- remote steps ----

  datatype Step = Step(command: Command, resolvesCommit: bool)

  function Plain(what: Reading): Step {
    Step(Check(what, false), false)
  }

  /** The directory, the source and the environment files. */
  function WritingSteps(t: Target): seq<Step> {
    [Plain(PrepareDirectory)]
    + (if ShouldSync(t) then [Step(Check(SyncRepository, false), true)] else [])
    + [Plain(WriteEnvironment)]
    + seq(t.serviceFiles, _ => Plain(WriteServiceFile))
  }

  /** blueGreenSteps, and without a colour the steps that stand in their place. */
  function StartingSteps(t: Target, color: Option<Color>): seq<Step> {
    (if color.Some? then [Plain(SelectColor)] else [])
    + [Plain(ValidateCompose), Plain(FetchImages)]
    + [Step(StartStack(color, if color.Some? then t.singletons else {}), false)]
    + (if color.Some? && t.singletons != {} then [Step(PrepareSingletons(color.value, t.singletons), false)] else [])
    + (if color.Some? then [Plain(CheckHealth)] else [])
  }

  /** remoteSteps. */
  function RemoteSteps(t: Target, color: Option<Color>): seq<Step> {
    WritingSteps(t) + StartingSteps(t, color)
  }

  function FirstLine(s: string): string {
    if s == [] || s[0] == '\n' then [] else [s[0]] + FirstLine(s[1..])
  }

  predicate IsHex(c: char) {
    '0' <= c <= '9' || 'a' <= c <= 'f' || 'A' <= c <= 'F'
  }

  predicate IsCommit(s: string) {
    |s| == 40 && forall i | 0 <= i < |s| :: IsHex(s[i])
  }

  datatype Stepped = Stepped(m: Machine, ok: bool, commit: Option<string>)

  /** resolveSourceCommit: reads HEAD and pins it, keeping a commit pinned before. */
  function ResolveCommit(env: Environment, m: Machine, commit: Option<string>): (r: Stepped)
    ensures m.trace <= r.m.trace
  {
    var read := Do(env, m, Check(ReadCommit, false));
    var head := Trim(FirstLine(Answer(env, m, Check(ReadCommit, false)).text));
    if !read.ok || !IsCommit(head) then Stepped(read.m, false, commit)
    else
      var pin := Do(env, read.m, Check(PinCommit, false));
      if !pin.ok then Stepped(pin.m, false, commit)
      else Stepped(pin.m, true, if commit.Some? then commit else Some(head))
  }

  function RunSteps(env: Environment, m: Machine, steps: seq<Step>, commit: Option<string>): (r: Stepped)
    ensures m.trace <= r.m.trace
    decreases |steps|
  {
    if steps == [] then Stepped(m, true, commit)
    else
      var run := Do(env, m, steps[0].command);
      if !run.ok then Stepped(run.m, false, commit)
      else if !steps[0].resolvesCommit then RunSteps(env, run.m, steps[1..], commit)
      else
        var resolved := ResolveCommit(env, run.m, commit);
        if !resolved.ok then resolved
        else RunSteps(env, resolved.m, steps[1..], resolved.commit)
  }

  /** A row of checks, stopping at the first that fails. */
  function Checks(env: Environment, m: Machine, whats: seq<Reading>): (r: Ended)
    ensures m.trace <= r.m.trace
    decreases |whats|
  {
    if whats == [] then Ended(m, true)
    else
      var r := Do(env, m, Check(whats[0], false));
      if !r.ok then r else Checks(env, r.m, whats[1..])
  }

  // ---- singleton services ----

  function Restore(env: Environment, m: Machine, t: Target, from: Option<Color>, to: Option<Color>): (r: Ended)
    ensures m.trace <= r.m.trace
  {
    if t.singletons == {} || !t.blueGreen then Ended(m, true)
    else
      var stopped := if from.Some? then Do(env, m, Stop(from.value, t.singletons, true)) else Ended(m, true);
      var started :=
        if to.Some? then Do(env, stopped.m, Start(to.value, t.singletons, true)) else Ended(stopped.m, true);
      Ended(started.m, stopped.ok && started.ok)
  }

  function Switch(env: Environment, m: Machine, t: Target, from: Option<Color>, to: Color): (r: Ended)
    ensures m.trace <= r.m.trace
  {
    if t.singletons == {} || !t.blueGreen then Ended(m, true)
    else
      var stopped := if from.Some? then Do(env, m, Stop(from.value, t.singletons, false)) else Ended(m, true);
      if !stopped.ok then Ended(Exec(env, stopped.m, Start(from.value, t.singletons, true)), false)
      else StartNew(env, stopped.m, t, from, to)
  }

  /** The second half of a switch: start the singletons, and see that all of them run. */
  function StartNew(env: Environment, m: Machine, t: Target, from: Option<Color>, to: Color): (r: Ended)
    ensures m.trace <= r.m.trace
  {
    var started := Do(env, m, Start(to, t.singletons, false));
    if !started.ok then Ended(Restore(env, started.m, t, Some(to), from).m, false)
    else
      var checked := Do(env, started.m, Verify(to, t.singletons));
      if checked.ok && t.singletons <= checked.m.world.running.At(to) then checked
      else Ended(Restore(env, checked.m, t, Some(to), from).m, false)
  }

  // ---- proxy routes ----

  /** Prepares every route before any is applied; the first that cannot be is marked failed. */
  function PrepareRoutes(env: Environment, m: Machine, routes: seq<Route>, color: Option<Color>, undo: bool): (r: Ended)
    ensures m.trace <= r.m.trace
    decreases |routes|
  {
    if routes == [] then Ended(m, true)
    else if Upstream(routes[0], color).None? then Ended(Exec(env, m, Check(MarkRouteFailed, false)), false)
    else
      var prepared := Do(env, m, Check(PrepareRoute, undo));
      if !prepared.ok then Ended(Exec(env, prepared.m, Check(MarkRouteFailed, false)), false)
      else PrepareRoutes(env, prepared.m, routes[1..], color, undo)
  }

  /** rollbackProxyRoutes: the first `n` routes, last first, back to the upstream recorded when listed. */
  function UndoRoutes(env: Environment, m: Machine, routes: seq<Route>, n: nat): (r: Machine)
    requires n <= |routes|
    ensures m.trace <= r.trace
    decreases n
  {
    if n == 0 then m
    else UndoRoutes(env, Exec(env, m, SetRoute(routes[n - 1].slug, routes[n - 1].upstream, true)), routes, n - 1)
  }

  predicate Prepared(routes: seq<Route>, color: Option<Color>) {
    forall i | 0 <= i < |routes| :: Upstream(routes[i], color).Some?
  }

  function SetRoutes(
    env: Environment, m: Machine, routes: seq<Route>, color: Option<Color>, undo: bool, i: nat): (r: Ended)
    requires i <= |routes| && Prepared(routes, color)
    ensures m.trace <= r.m.trace
    decreases |routes| - i
  {
    if i == |routes| then Ended(m, true)
    else
      var put := Do(env, m, SetRoute(routes[i].slug, Upstream(routes[i], color).value, undo));
      if put.ok then SetRoutes(env, put.m, routes, color, undo, i + 1)
      else Ended(UndoRoutes(env, Exec(env, put.m, Check(MarkRouteFailed, false)), routes, i), false)
  }

  function Desired(routes: seq<Route>, color: Option<Color>): (r: map<nat, string>)
    requires Prepared(routes, color)
  {
    if routes == [] then map[]
    else Desired(routes[..|routes| - 1], color)[routes[|routes| - 1].id := Upstream(routes[|routes| - 1], color).value]
  }

  lemma {:induction false} PrepareRoutesChecks(
    env: Environment, m: Machine, routes: seq<Route>, color: Option<Color>, undo: bool)
    ensures PrepareRoutes(env, m, routes, color, undo).ok ==> Prepared(routes, color)
    decreases |routes|
  {
    if routes != [] && Upstream(routes[0], color).Some? && Do(env, m, Check(PrepareRoute, undo)).ok {
      PrepareRoutesChecks(env, Exec(env, m, Check(PrepareRoute, undo)), routes[1..], color, undo);
    }
  }

  /** Records the upstreams of routes already set; a row missed or an error takes all of them back. */
  function RecordRoutes(env: Environment, m: Machine, routes: seq<Route>, color: Option<Color>, undo: bool): (r: Ended)
    requires Prepared(routes, color)
    ensures m.trace <= r.m.trace
  {
    var command := Promote(Desired(routes, color), undo);
    var promoted := Do(env, m, command);
    if promoted.ok && command.desired.Keys !! Answer(env, m, command).missed then promoted
    else Ended(UndoRoutes(env, promoted.m, routes, |routes|), false)
  }

  function ApplyRoutes(env: Environment, m: Machine, t: Target, color: Option<Color>, undo: bool): (r: Ended)
    ensures m.trace <= r.m.trace
  {
    if !t.proxied then Ended(m, true)
    else
      var listed := Do(env, m, Check(ListRoutes, undo));
      if !listed.ok then listed
      else
        var routes := listed.m.world.routes;
        var prepared := PrepareRoutes(env, listed.m, routes, color, undo);
        if !prepared.ok then prepared
        else
          PrepareRoutesChecks(env, listed.m, routes, color, undo);
          var put := SetRoutes(env, prepared.m, routes, color, undo, 0);
          if !put.ok || routes == [] then put else RecordRoutes(env, put.m, routes, color, undo)
  }

  // ---- whole runs ----

  /**
    The tail both deploy and rollback share: move the singletons, move the routes,
    activate the slot, and undo the earlier moves when a later one fails.
   */
  function Cutover(
    env: Environment, m: Machine, t: Target, from: Option<Color>, to: Color, activate: bool, rollback: bool): (r: Ended)
    ensures m.trace <= r.m.trace
  {
    var switched := Switch(env, m, t, from, to);
    if !switched.ok then switched
    else
      var applied := ApplyRoutes(env, switched.m, t, Some(to), false);
      if !applied.ok then Ended(Restore(env, applied.m, t, Some(to), from).m, false)
      else if !activate then applied
      else
        var activated := Do(env, applied.m, Activate(to, rollback));
        if activated.ok then activated
        else
          var back := if from.Some? then ApplyRoutes(env, activated.m, t, from, true).m else activated.m;
          Ended(Restore(env, back, t, Some(to), from).m, false)
  }

  function DeployChecks(t: Target): seq<Reading> {
    [Connect, LoadVariables, LoadServiceVariables]
    + (if t.blueGreen then [LoadActiveSlot] else [])
    + [DecodeServices]
    + (if t.blueGreen then [LoadPorts] else [])
    + (if ShouldSync(t) then [AuthorizeSource] else [])
    + [RenderSteps]
  }

  /** What a run found out about its own deployment row: the commit it was pinned to. */
  datatype Deployed = Deployed(m: Machine, ok: bool, ref: string)

  function Deploy(env: Environment, m: Machine, t: Target): (r: Deployed)
    ensures m.trace <= r.m.trace
  {
    var checked := Checks(env, m, DeployChecks(t));
    if !checked.ok then Deployed(checked.m, false, "")
    else
      var current := if t.blueGreen then ActiveColor(m.world.slots) else None;
      var color := if t.blueGreen then Some(NextColor(current)) else None;
      var built := RunSteps(env, checked.m, RemoteSteps(t, color), t.commit);
      var ref := RollbackRef(t, built.commit);
      if !built.ok then Deployed(built.m, false, ref)
      else if !t.blueGreen then
        var applied := ApplyRoutes(env, built.m, t, None, false);
        Deployed(applied.m, applied.ok, ref)
      else
        var recorded :=
          if ref != "" then Do(env, built.m, UpsertSlot(color.value, ref, t.deployment)) else Ended(built.m, true);
        if !recorded.ok then Deployed(recorded.m, false, ref)
        else
          var moved := Cutover(env, recorded.m, t, current, color.value, ref != "", false);
          Deployed(moved.m, moved.ok, ref)
  }

  /** GetStandbyDeploymentSlot: the newest of two standby rows, were there ever two. */
  function StandbyColor(slots: PerColor<Option<Slot>>, newest: Color): Option<Color> {
    if IsStandby(slots.At(newest)) then Some(newest)
    else if IsStandby(slots.At(Other(newest))) then Some(Other(newest)) else None
  }

  datatype Plan = Plan(m: Machine, ok: bool, from: Option<Color>, to: Color)

  /** What rollback reads and checks before it moves anything; only singletons make it load the active slot. */
  function PlanRollback(env: Environment, m: Machine, t: Target): (r: Plan)
    ensures m.trace <= r.m.trace
  {
    var connected := Do(env, m, Check(Connect, false));
    if !connected.ok then Plan(connected.m, false, None, Blue)
    else
      var load := Check(LoadStandbySlot, false);
      var loaded := Do(env, connected.m, load);
      var newest := if Answer(env, connected.m, load).text == "green" then Green else Blue;
      var standby := StandbyColor(connected.m.world.slots, newest);
      if !loaded.ok || standby.None? then Plan(loaded.m, false, None, Blue)
      else
        var healthy := Checks(env, loaded.m, (if t.blueGreen then [LoadPorts, CheckHealth] else []) + [DecodeServices]);
        if !healthy.ok || t.singletons == {} then Plan(healthy.m, healthy.ok, None, standby.value)
        else
          var active := Do(env, healthy.m, Check(LoadActiveSlot, false));
          var from := ActiveColor(healthy.m.world.slots);
          if !active.ok || from.None? then Plan(active.m, false, None, standby.value)
          else
            var ports := Checks(env, active.m, if t.blueGreen then [LoadPorts] else []);
            Plan(ports.m, ports.ok, from, standby.value)
  }

  function Rollback(env: Environment, m: Machine, t: Target): (r: Ended)
    ensures m.trace <= r.m.trace
  {
    var plan := PlanRollback(env, m, t);
    if !plan.ok then Ended(plan.m, false) else Cutover(env, plan.m, t, plan.from, plan.to, true, true)
  }
}
