/**
  What a run issues, in order: the commands of a run that succeeds, written out,
  and what must have succeeded before a run moves anything.
 */
module Scripts {
  import opened Text
  import opened Site
  import opened Protocol
  import opened RouteMoves
  import opened Cutovers
  import opened Singletons
  import opened Addresses

  // ---- issued and answered ----

  /** From position `from` on the trace has these commands, each answered without error. */
  ghost predicate Passed(env: Environment, trace: seq<Event>, from: nat, script: seq<Command>) {
    && from + |script| <= |trace|
    && forall k | 0 <= k < |script| :: trace[from + k].command == script[k] && env(from + k, script[k]).ok
  }

  /** Between `m` and `r` exactly these commands were issued, each answered without error. */
  ghost predicate Ran(env: Environment, m: Machine, r: Machine, script: seq<Command>) {
    m.trace <= r.trace && |r.trace| == |m.trace| + |script| && Passed(env, r.trace, |m.trace|, script)
  }

  lemma RanOne(env: Environment, m: Machine, c: Command)
    requires Answer(env, m, c).ok
    ensures Ran(env, m, Exec(env, m, c), [c])
  {
  }

  lemma RanThen(env: Environment, a: Machine, b: Machine, c: Machine, first: seq<Command>, second: seq<Command>)
    requires Ran(env, a, b, first) && Ran(env, b, c, second)
    ensures Ran(env, a, c, first + second)
  {
    forall k | 0 <= k < |first + second|
      ensures c.trace[|a.trace| + k].command == (first + second)[k] && env(|a.trace| + k, (first + second)[k]).ok
    {
      if k < |first| {
        assert c.trace[|a.trace| + k] == b.trace[|a.trace| + k];
      } else {
        var j := k - |first|;
        assert c.trace[|b.trace| + j].command == second[j];
      }
    }
  }

  lemma PassedStays(env: Environment, trace: seq<Event>, more: seq<Event>, from: nat, script: seq<Command>)
    requires Passed(env, trace, from, script) && trace <= more
    ensures Passed(env, more, from, script)
  {
  }

  // ---- the scripts ----

  function Reads(whats: seq<Reading>): (r: seq<Command>)
    ensures |r| == |whats| && forall i | 0 <= i < |r| :: r[i] == Check(whats[i], false)
  {
    seq(|whats|, i requires 0 <= i < |whats| => Check(whats[i], false))
  }

  /** The deployment builds from its repository: there is one, and no image pins it unless a commit does. */
  predicate BuildsFromSource(t: Target) {
    && Trim(t.repository) != ""
    && (Trim(t.imageRef) == "" || (t.commit.Some? && Trim(t.commit.value) != ""))
  }

  /** What is read and checked before anything goes to the server. */
  function ReadScript(t: Target): seq<Command> {
    Reads([Connect, LoadVariables, LoadServiceVariables]
          + (if t.blueGreen then [LoadActiveSlot] else [])
          + [DecodeServices]
          + (if t.blueGreen then [LoadPorts] else [])
          + (if BuildsFromSource(t) then [AuthorizeSource] else [])
          + [RenderSteps])
  }

  /** The directory, the source at its commit, and the environment files. */
  function WriteScript(t: Target): seq<Command> {
    Reads([PrepareDirectory])
    + Reads(if BuildsFromSource(t) then [SyncRepository, ReadCommit, PinCommit] else [])
    + Reads([WriteEnvironment])
    + Reads(seq(t.serviceFiles, _ => WriteServiceFile))
  }

  /** The candidate: validated, its images fetched, started without singletons, and checked. */
  function StartScript(t: Target, color: Option<Color>): seq<Command> {
    Reads(if color.Some? then [SelectColor] else [])
    + Reads([ValidateCompose, FetchImages])
    + [StartStack(color, if color.Some? then t.singletons else {})]
    + (if color.Some? && t.singletons != {} then [PrepareSingletons(color.value, t.singletons)] else [])
    + Reads(if color.Some? then [CheckHealth] else [])
  }

  /** Everything before anything is moved. */
  function BuildScript(t: Target, color: Option<Color>): seq<Command> {
    ReadScript(t) + WriteScript(t) + StartScript(t, color)
  }

  function SwitchScript(t: Target, from: Option<Color>, to: Color): seq<Command> {
    if t.singletons == {} || !t.blueGreen then []
    else
      (if from.Some? then [Stop(from.value, t.singletons, false)] else [])
      + [Start(to, t.singletons, false), Verify(to, t.singletons)]
  }

  /** The address each row is to record. */
  ghost function Wanted(routes: seq<Route>, color: Option<Color>): map<nat, string>
    requires DistinctRoutes(routes)
  {
    map i | 0 <= i < |routes| :: routes[i].id := AddressOf(routes[i], color)
  }

  function SetCommands(routes: seq<Route>, color: Option<Color>): (r: seq<Command>)
    ensures |r| == |routes|
    ensures forall i | 0 <= i < |r| :: r[i] == SetRoute(routes[i].slug, AddressOf(routes[i], color), false)
  {
    seq(|routes|, i requires 0 <= i < |routes| => SetRoute(routes[i].slug, AddressOf(routes[i], color), false))
  }

  ghost function RoutesScript(t: Target, routes: seq<Route>, color: Option<Color>): seq<Command>
    requires DistinctRoutes(routes)
  {
    if !t.proxied then []
    else
      Reads([ListRoutes]) + Reads(seq(|routes|, _ => PrepareRoute)) + SetCommands(routes, color)
      + (if routes == [] then [] else [Promote(Wanted(routes, color), false)])
  }

  ghost function CutoverScript(
    t: Target, routes: seq<Route>, from: Option<Color>, to: Color, activate: bool, rollback: bool): seq<Command>
    requires DistinctRoutes(routes)
  {
    SwitchScript(t, from, to) + RoutesScript(t, routes, Some(to)) + (if activate then [Activate(to, rollback)] else [])
  }

  ghost function DeployScript(w: World, t: Target, ref: string): seq<Command>
    requires DistinctRoutes(w.routes)
  {
    var color := TargetColor(t, w);
    BuildScript(t, color)
    + if !t.blueGreen then RoutesScript(t, w.routes, None)
      else
        (if ref != "" then [UpsertSlot(color.value, ref, t.deployment)] else [])
        + CutoverScript(t, w.routes, ActiveColor(w.slots), color.value, ref != "", false)
  }

  /** What a rollback reads and checks before it moves anything. */
  function PlanScript(t: Target): seq<Command> {
    Reads([Connect]) + Reads([LoadStandbySlot])
    + Reads((if t.blueGreen then [LoadPorts, CheckHealth] else []) + [DecodeServices])
    + (if t.singletons == {} then []
       else Reads([LoadActiveSlot]) + Reads(if t.blueGreen then [LoadPorts] else []))
  }

  // ---- building ----

  lemma {:induction false} ChecksRan(env: Environment, m: Machine, whats: seq<Reading>)
    requires Checks(env, m, whats).ok
    ensures Ran(env, m, Checks(env, m, whats).m, Reads(whats))
    decreases |whats|
  {
    if whats != [] {
      var next := Exec(env, m, Check(whats[0], false));
      RanOne(env, m, Check(whats[0], false));
      ChecksRan(env, next, whats[1..]);
      RanThen(env, m, next, Checks(env, m, whats).m, [Check(whats[0], false)], Reads(whats[1..]));
      assert [Check(whats[0], false)] + Reads(whats[1..]) == Reads(whats);
    }
  }

  /** The commands of a step: a sync is followed by reading and pinning the commit. */
  function StepCommands(step: Step): seq<Command> {
    [step.command] + if step.resolvesCommit then Reads([ReadCommit, PinCommit]) else []
  }

  function StepScript(steps: seq<Step>): seq<Command> {
    if steps == [] then [] else StepCommands(steps[0]) + StepScript(steps[1..])
  }

  lemma ResolveRan(env: Environment, m: Machine, commit: Option<string>)
    requires ResolveCommit(env, m, commit).ok
    ensures Ran(env, m, ResolveCommit(env, m, commit).m, Reads([ReadCommit, PinCommit]))
  {
    var read := Exec(env, m, Check(ReadCommit, false));
    var pin := Exec(env, read, Check(PinCommit, false));
    RanOne(env, m, Check(ReadCommit, false));
    RanOne(env, read, Check(PinCommit, false));
    RanThen(env, m, read, pin, [Check(ReadCommit, false)], [Check(PinCommit, false)]);
    assert [Check(ReadCommit, false)] + [Check(PinCommit, false)] == Reads([ReadCommit, PinCommit]);
  }

  /** A build that got through issued every step in order, each answered without error. */
  lemma {:induction false} StepsRan(env: Environment, m: Machine, steps: seq<Step>, commit: Option<string>)
    requires RunSteps(env, m, steps, commit).ok
    ensures Ran(env, m, RunSteps(env, m, steps, commit).m, StepScript(steps))
    decreases |steps|
  {
    if steps != [] {
      var c, r := steps[0].command, RunSteps(env, m, steps, commit).m;
      var run := Exec(env, m, c);
      RanOne(env, m, c);
      if steps[0].resolvesCommit {
        var resolved := ResolveCommit(env, run, commit);
        ResolveRan(env, run, commit);
        RanThen(env, m, run, resolved.m, [c], Reads([ReadCommit, PinCommit]));
        StepsRan(env, resolved.m, steps[1..], resolved.commit);
        RanThen(env, m, resolved.m, r, StepCommands(steps[0]), StepScript(steps[1..]));
      } else {
        StepsRan(env, run, steps[1..], commit);
        assert StepCommands(steps[0]) == [c];
        RanThen(env, m, run, r, [c], StepScript(steps[1..]));
      }
    }
  }

  lemma {:induction false} StepScriptAppend(a: seq<Step>, b: seq<Step>)
    ensures StepScript(a + b) == StepScript(a) + StepScript(b)
    decreases |a|
  {
    if a == [] {
      assert a + b == b;
    } else {
      assert (a + b)[0] == a[0] && (a + b)[1..] == a[1..] + b;
      StepScriptAppend(a[1..], b);
    }
  }

  function Plains(whats: seq<Reading>): (r: seq<Step>)
    ensures |r| == |whats| && forall i | 0 <= i < |r| :: r[i] == Plain(whats[i])
  {
    seq(|whats|, i requires 0 <= i < |whats| => Plain(whats[i]))
  }

  lemma ReadsCons(whats: seq<Reading>)
    requires whats != []
    ensures Reads(whats) == [Check(whats[0], false)] + Reads(whats[1..])
    ensures Plains(whats)[0] == Plain(whats[0]) && Plains(whats)[1..] == Plains(whats[1..])
  {
  }

  lemma {:induction false} PlainScript(whats: seq<Reading>)
    ensures StepScript(Plains(whats)) == Reads(whats)
    decreases |whats|
  {
    if whats != [] {
      ReadsCons(whats);
      PlainScript(whats[1..]);
      assert StepCommands(Plain(whats[0])) == [Check(whats[0], false)];
    }
  }

  lemma OneStep(step: Step)
    ensures StepScript([step]) == StepCommands(step)
  {
    assert [step][1..] == [];
    assert StepCommands(step) + [] == StepCommands(step);
  }

  lemma SyncScript(t: Target)
    ensures StepScript(if ShouldSync(t) then [Step(Check(SyncRepository, false), true)] else [])
            == Reads(if BuildsFromSource(t) then [SyncRepository, ReadCommit, PinCommit] else [])
  {
    if ShouldSync(t) {
      var step := Step(Check(SyncRepository, false), true);
      OneStep(step);
      assert StepCommands(step) == Reads([SyncRepository, ReadCommit, PinCommit]);
    }
  }

  lemma CommandScript(c: Command)
    ensures StepScript([Step(c, false)]) == [c]
  {
    OneStep(Step(c, false));
  }

  lemma ReadingsScript(steps: seq<Step>, whats: seq<Reading>)
    requires steps == Plains(whats)
    ensures StepScript(steps) == Reads(whats)
  {
    PlainScript(whats);
  }

  lemma WritingScript(t: Target)
    ensures StepScript(WritingSteps(t)) == WriteScript(t)
  {
    var sync := if ShouldSync(t) then [Step(Check(SyncRepository, false), true)] else [];
    var files := seq(t.serviceFiles, _ => WriteServiceFile);
    SyncScript(t);
    ReadingsScript([Plain(PrepareDirectory)], [PrepareDirectory]);
    ReadingsScript([Plain(WriteEnvironment)], [WriteEnvironment]);
    ReadingsScript(seq(t.serviceFiles, _ => Plain(WriteServiceFile)), files);
    StepScriptAppend([Plain(PrepareDirectory)], sync);
    StepScriptAppend([Plain(PrepareDirectory)] + sync, [Plain(WriteEnvironment)]);
    StepScriptAppend([Plain(PrepareDirectory)] + sync + [Plain(WriteEnvironment)],
                     seq(t.serviceFiles, _ => Plain(WriteServiceFile)));
  }

  lemma StartingScript(t: Target, color: Option<Color>)
    ensures StepScript(StartingSteps(t, color)) == StartScript(t, color)
  {
    var select := if color.Some? then [Plain(SelectColor)] else [];
    var images := [Plain(ValidateCompose), Plain(FetchImages)];
    var start := StartStack(color, if color.Some? then t.singletons else {});
    var prepare :=
      if color.Some? && t.singletons != {} then [Step(PrepareSingletons(color.value, t.singletons), false)] else [];
    var health := if color.Some? then [Plain(CheckHealth)] else [];
    ReadingsScript(select, if color.Some? then [SelectColor] else []);
    ReadingsScript(images, [ValidateCompose, FetchImages]);
    CommandScript(start);
    if prepare != [] {
      CommandScript(prepare[0].command);
    }
    ReadingsScript(health, if color.Some? then [CheckHealth] else []);
    StepScriptAppend(select, images);
    StepScriptAppend(select + images, [Step(start, false)]);
    StepScriptAppend(select + images + [Step(start, false)], prepare);
    StepScriptAppend(select + images + [Step(start, false)] + prepare, health);
  }

  /** The remote steps issue exactly what the script says goes to the server. */
  lemma StepsFollowScript(t: Target, color: Option<Color>)
    ensures StepScript(RemoteSteps(t, color)) == WriteScript(t) + StartScript(t, color)
  {
    StepScriptAppend(WritingSteps(t), StartingSteps(t, color));
    WritingScript(t);
    StartingScript(t, color);
  }

  lemma ChecksFollowScript(t: Target)
    ensures Reads(DeployChecks(t)) == ReadScript(t)
  {
    assert ShouldSync(t) == BuildsFromSource(t);
  }

  /** A candidate is built by exactly the build script. */
  lemma BuildRan(env: Environment, m: Machine, t: Target, color: Option<Color>)
    requires Checks(env, m, DeployChecks(t)).ok
    requires RunSteps(env, Checks(env, m, DeployChecks(t)).m, RemoteSteps(t, color), t.commit).ok
    ensures Ran(env, m, RunSteps(env, Checks(env, m, DeployChecks(t)).m, RemoteSteps(t, color), t.commit).m,
                BuildScript(t, color))
  {
    var checked := Checks(env, m, DeployChecks(t)).m;
    var built := RunSteps(env, checked, RemoteSteps(t, color), t.commit).m;
    ChecksRan(env, m, DeployChecks(t));
    StepsRan(env, checked, RemoteSteps(t, color), t.commit);
    StepsFollowScript(t, color);
    ChecksFollowScript(t);
    RanThen(env, m, checked, built, ReadScript(t), WriteScript(t) + StartScript(t, color));
    assert ReadScript(t) + (WriteScript(t) + StartScript(t, color)) == BuildScript(t, color);
  }

  // ---- moving ----

  lemma SwitchRan(env: Environment, m: Machine, t: Target, from: Option<Color>, to: Color)
    requires Switch(env, m, t, from, to).ok
    ensures Ran(env, m, Switch(env, m, t, from, to).m, SwitchScript(t, from, to))
  {
    if t.singletons != {} && t.blueGreen {
      var stop := if from.Some? then [Stop(from.value, t.singletons, false)] else [];
      var stopped := if from.Some? then Exec(env, m, stop[0]) else m;
      var start, verify := Start(to, t.singletons, false), Verify(to, t.singletons);
      var started := Exec(env, stopped, start);
      RanOne(env, stopped, start);
      RanOne(env, started, verify);
      RanThen(env, stopped, started, Exec(env, started, verify), [start], [verify]);
      assert [start] + [verify] == [start, verify];
      assert Ran(env, m, stopped, stop);
      RanThen(env, m, stopped, Exec(env, started, verify), stop, [start, verify]);
    }
  }

  lemma {:induction false} PrepareRan(env: Environment, m: Machine, routes: seq<Route>, color: Option<Color>)
    requires PrepareRoutes(env, m, routes, color, false).ok
    ensures Ran(env, m, PrepareRoutes(env, m, routes, color, false).m, Reads(seq(|routes|, _ => PrepareRoute)))
    decreases |routes|
  {
    if routes != [] {
      var c, r := Check(PrepareRoute, false), PrepareRoutes(env, m, routes, color, false).m;
      RanOne(env, m, c);
      PrepareRan(env, Exec(env, m, c), routes[1..], color);
      var rest := Reads(seq(|routes[1..]|, _ => PrepareRoute));
      RanThen(env, m, Exec(env, m, c), r, [c], rest);
      assert [c] + rest == Reads(seq(|routes|, _ => PrepareRoute));
    }
  }

  lemma {:induction false} SetRan(env: Environment, m: Machine, routes: seq<Route>, color: Option<Color>, i: nat)
    requires i <= |routes| && Prepared(routes, color) && SetRoutes(env, m, routes, color, false, i).ok
    ensures Ran(env, m, SetRoutes(env, m, routes, color, false, i).m, SetCommands(routes, color)[i..])
    decreases |routes| - i
  {
    if i < |routes| {
      UpstreamExactly(routes[i], color);
      var c, r := SetCommands(routes, color)[i], SetRoutes(env, m, routes, color, false, i).m;
      RanOne(env, m, c);
      SetRan(env, Exec(env, m, c), routes, color, i + 1);
      RanThen(env, m, Exec(env, m, c), r, [c], SetCommands(routes, color)[i + 1..]);
      assert [c] + SetCommands(routes, color)[i + 1..] == SetCommands(routes, color)[i..];
    }
  }

  lemma {:induction false} DesiredKeys(routes: seq<Route>, color: Option<Color>, id: nat)
    requires Prepared(routes, color)
    ensures id in Desired(routes, color) <==> exists i :: 0 <= i < |routes| && routes[i].id == id
    decreases |routes|
  {
    if routes != [] {
      DesiredKeys(routes[..|routes| - 1], color, id);
      assert routes[|routes| - 1].id == id ==> exists i :: 0 <= i < |routes| && routes[i].id == id;
      if i :| 0 <= i < |routes| && routes[i].id == id {
        assert i < |routes| - 1 ==> routes[..|routes| - 1][i].id == id;
      }
    }
  }

  lemma WantedAt(routes: seq<Route>, color: Option<Color>)
    requires DistinctRoutes(routes)
    ensures forall i | 0 <= i < |routes| ::
              && routes[i].id in Wanted(routes, color)
              && Wanted(routes, color)[routes[i].id] == AddressOf(routes[i], color)
    ensures forall id | id in Wanted(routes, color) :: exists i :: 0 <= i < |routes| && routes[i].id == id
  {
  }

  lemma DesiredKeysAreWanted(routes: seq<Route>, color: Option<Color>)
    requires Prepared(routes, color) && DistinctRoutes(routes)
    ensures Desired(routes, color).Keys == Wanted(routes, color).Keys
  {
    WantedAt(routes, color);
    forall id ensures id in Desired(routes, color).Keys <==> id in Wanted(routes, color).Keys {
      DesiredKeys(routes, color, id);
    }
  }

  lemma DesiredValuesAreWanted(routes: seq<Route>, color: Option<Color>, id: nat)
    requires Prepared(routes, color) && DistinctRoutes(routes) && id in Wanted(routes, color)
    ensures id in Desired(routes, color) && Desired(routes, color)[id] == Wanted(routes, color)[id]
  {
    DesiredAt(routes, color);
    WantedAt(routes, color);
    var i :| 0 <= i < |routes| && routes[i].id == id;
    UpstreamExactly(routes[i], color);
  }

  /** The promotion records for each row its own address. */
  lemma DesiredIsWanted(routes: seq<Route>, color: Option<Color>)
    requires Prepared(routes, color) && DistinctRoutes(routes)
    ensures Desired(routes, color) == Wanted(routes, color)
  {
    var desired, wanted := Desired(routes, color), Wanted(routes, color);
    DesiredKeysAreWanted(routes, color);
    forall id | id in wanted.Keys ensures desired[id] == wanted[id] {
      DesiredValuesAreWanted(routes, color, id);
    }
  }

  lemma RoutesRan(env: Environment, m: Machine, t: Target, color: Option<Color>)
    requires DistinctRoutes(m.world.routes) && ApplyRoutes(env, m, t, color, false).ok
    ensures Ran(env, m, ApplyRoutes(env, m, t, color, false).m, RoutesScript(t, m.world.routes, color))
  {
    if t.proxied {
      var routes, list := m.world.routes, Check(ListRoutes, false);
      var listed := Exec(env, m, list);
      var prepared := PrepareRoutes(env, listed, routes, color, false);
      PrepareRoutesChecks(env, listed, routes, color, false);
      var put := SetRoutes(env, prepared.m, routes, color, false, 0);
      var prepares := Reads(seq(|routes|, _ => PrepareRoute));
      RanOne(env, m, list);
      assert [list] == Reads([ListRoutes]);
      PrepareRan(env, listed, routes, color);
      RanThen(env, m, listed, prepared.m, Reads([ListRoutes]), prepares);
      SetRan(env, prepared.m, routes, color, 0);
      assert SetCommands(routes, color)[0..] == SetCommands(routes, color);
      RanThen(env, m, prepared.m, put.m, Reads([ListRoutes]) + prepares, SetCommands(routes, color));
      if routes != [] {
        DesiredIsWanted(routes, color);
        var promote := Promote(Wanted(routes, color), false);
        RanOne(env, put.m, promote);
        RanThen(env, m, put.m, Exec(env, put.m, promote),
                Reads([ListRoutes]) + prepares + SetCommands(routes, color), [promote]);
      }
    }
  }

  lemma CutoverRan(
    env: Environment, m: Machine, t: Target, from: Option<Color>, to: Color, activate: bool, rollback: bool)
    requires DistinctRoutes(m.world.routes) && Cutover(env, m, t, from, to, activate, rollback).ok
    ensures Ran(env, m, Cutover(env, m, t, from, to, activate, rollback).m,
                CutoverScript(t, m.world.routes, from, to, activate, rollback))
  {
    var switched := Switch(env, m, t, from, to).m;
    SwitchRan(env, m, t, from, to);
    SwitchKeepsTraffic(env, m, t, from, to);
    var applied := ApplyRoutes(env, switched, t, Some(to), false).m;
    RoutesRan(env, switched, t, Some(to));
    var first, second := SwitchScript(t, from, to), RoutesScript(t, m.world.routes, Some(to));
    RanThen(env, m, switched, applied, first, second);
    if activate {
      RanOne(env, applied, Activate(to, rollback));
      RanThen(env, m, applied, Exec(env, applied, Activate(to, rollback)), first + second, [Activate(to, rollback)]);
    }
  }

  // ---- whole runs ----

  /** A deployment that succeeds issued exactly its script, every command answered without error. */
  lemma DeployRan(env: Environment, m: Machine, t: Target)
    requires DistinctRoutes(m.world.routes) && Deploy(env, m, t).ok
    ensures Ran(env, m, Deploy(env, m, t).m, DeployScript(m.world, t, Deploy(env, m, t).ref))
  {
    var color := TargetColor(t, m.world);
    var checked := Checks(env, m, DeployChecks(t)).m;
    var built := RunSteps(env, checked, RemoteSteps(t, color), t.commit);
    var build := BuildScript(t, color);
    BuildRan(env, m, t, color);
    BuildKeepsRoutes(env, m, t, color);
    if !t.blueGreen {
      RoutesRan(env, built.m, t, None);
      RanThen(env, m, built.m, Deploy(env, m, t).m, build, RoutesScript(t, m.world.routes, None));
    } else {
      MovedRan(env, m, built.m, t, color.value, RollbackRef(t, built.commit));
    }
  }

  lemma BuildKeepsRoutes(env: Environment, m: Machine, t: Target, color: Option<Color>)
    ensures var checked := Checks(env, m, DeployChecks(t)).m;
            var built := RunSteps(env, checked, RemoteSteps(t, color), t.commit).m;
            built.world.routes == m.world.routes && built.world.slots == m.world.slots
  {
    ChecksKeep(env, m, DeployChecks(t));
    RemoteStepsOnlyBuild(t, color);
    RunStepsClear(env, Checks(env, m, DeployChecks(t)).m, m.world, RemoteSteps(t, color), t.commit, color,
                  if color.Some? then t.singletons else {});
  }

  /** The rest of a blue/green deployment: record the slot, then cut over. */
  lemma MovedRan(env: Environment, m: Machine, built: Machine, t: Target, color: Color, ref: string)
    requires DistinctRoutes(m.world.routes) && built.world.routes == m.world.routes
    requires Ran(env, m, built, BuildScript(t, Some(color)))
    requires var upsert := UpsertSlot(color, ref, t.deployment);
             var recorded := if ref != "" then Exec(env, built, upsert) else built;
             && (ref != "" ==> Answer(env, built, upsert).ok)
             && Cutover(env, recorded, t, ActiveColor(m.world.slots), color, ref != "", false).ok
    ensures var upsert := UpsertSlot(color, ref, t.deployment);
            var recorded := if ref != "" then Exec(env, built, upsert) else built;
            Ran(env, m, Cutover(env, recorded, t, ActiveColor(m.world.slots), color, ref != "", false).m,
                BuildScript(t, Some(color))
                + ((if ref != "" then [upsert] else [])
                   + CutoverScript(t, m.world.routes, ActiveColor(m.world.slots), color, ref != "", false)))
  {
    var upsert := UpsertSlot(color, ref, t.deployment);
    var recorded := if ref != "" then Exec(env, built, upsert) else built;
    RecordRan(env, built, color, ref, t.deployment);
    RecordedRan(env, m, built, recorded, t, color, if ref != "" then [upsert] else [], ref != "");
  }

  lemma RecordRan(env: Environment, m: Machine, color: Color, ref: string, deployment: nat)
    requires ref != "" ==> Answer(env, m, UpsertSlot(color, ref, deployment)).ok
    ensures var upsert := UpsertSlot(color, ref, deployment);
            var recorded := if ref != "" then Exec(env, m, upsert) else m;
            Ran(env, m, recorded, if ref != "" then [upsert] else []) && recorded.world.routes == m.world.routes
  {
    if ref != "" {
      RanOne(env, m, UpsertSlot(color, ref, deployment));
    }
  }

  lemma RecordedRan(
    env: Environment, m: Machine, built: Machine, recorded: Machine, t: Target, color: Color, record: seq<Command>,
    activate: bool)
    requires DistinctRoutes(m.world.routes) && recorded.world.routes == m.world.routes
    requires Ran(env, m, built, BuildScript(t, Some(color))) && Ran(env, built, recorded, record)
    requires Cutover(env, recorded, t, ActiveColor(m.world.slots), color, activate, false).ok
    ensures Ran(env, m, Cutover(env, recorded, t, ActiveColor(m.world.slots), color, activate, false).m,
                BuildScript(t, Some(color))
                + (record + CutoverScript(t, m.world.routes, ActiveColor(m.world.slots), color, activate, false)))
  {
    var from := ActiveColor(m.world.slots);
    var cutover := CutoverScript(t, m.world.routes, from, color, activate, false);
    var end := Cutover(env, recorded, t, from, color, activate, false).m;
    CutoverRan(env, recorded, t, from, color, activate, false);
    RanThen(env, built, recorded, end, record, cutover);
    RanThen(env, m, built, end, BuildScript(t, Some(color)), record + cutover);
  }

  // ---- nothing moves before the candidate was checked ----

  /** A command that touches traffic, running singletons or slots. */
  predicate Moves(c: Command) {
    c.Stop? || c.Start? || c.Verify? || c.SetRoute? || c.Promote? || c.UpsertSlot? || c.Activate?
  }

  ghost predicate NothingMoves(m: Machine, r: Machine) {
    m.trace <= r.trace && forall i | |m.trace| <= i < |r.trace| :: !Moves(r.trace[i].command)
  }

  lemma NothingMovesThen(a: Machine, b: Machine, c: Machine)
    requires NothingMoves(a, b) && NothingMoves(b, c)
    ensures NothingMoves(a, c)
  {
    forall i | |a.trace| <= i < |c.trace| ensures !Moves(c.trace[i].command) {
      if i < |b.trace| {
        assert c.trace[i] == b.trace[i];
      }
    }
  }

  lemma {:induction false} ChecksMoveNothing(env: Environment, m: Machine, whats: seq<Reading>)
    ensures NothingMoves(m, Checks(env, m, whats).m)
    decreases |whats|
  {
    if whats != [] {
      var next := Do(env, m, Check(whats[0], false));
      if next.ok {
        ChecksMoveNothing(env, next.m, whats[1..]);
        NothingMovesThen(m, next.m, Checks(env, m, whats).m);
      }
    }
  }

  lemma ResolveMovesNothing(env: Environment, m: Machine, commit: Option<string>)
    ensures NothingMoves(m, ResolveCommit(env, m, commit).m)
  {
    var read := Exec(env, m, Check(ReadCommit, false));
    NothingMovesThen(m, read, Exec(env, read, Check(PinCommit, false)));
  }

  lemma {:induction false} StepsMoveNothing(
    env: Environment, m: Machine, steps: seq<Step>, commit: Option<string>, color: Option<Color>, services: set<string>)
    requires OnlyBuilds(steps, color, services)
    ensures NothingMoves(m, RunSteps(env, m, steps, commit).m)
    decreases |steps|
  {
    if steps != [] {
      var run, r := Do(env, m, steps[0].command), RunSteps(env, m, steps, commit).m;
      assert !Moves(steps[0].command);
      assert NothingMoves(m, run.m);
      if run.ok {
        var resolved :=
          if steps[0].resolvesCommit then ResolveCommit(env, run.m, commit) else Stepped(run.m, true, commit);
        ResolveMovesNothing(env, run.m, commit);
        NothingMovesThen(m, run.m, resolved.m);
        if resolved.ok {
          StepsMoveNothing(env, resolved.m, steps[1..], resolved.commit, color, services);
          NothingMovesThen(m, resolved.m, r);
        }
      }
    }
  }

  /** Whatever a run moves, it moves after the whole script, every command of which was answered without error. */
  ghost predicate MovesAfter(env: Environment, m: Machine, r: Machine, script: seq<Command>) {
    forall i | |m.trace| <= i < |r.trace| && Moves(r.trace[i].command) ::
      |m.trace| + |script| <= i && Passed(env, r.trace, |m.trace|, script)
  }

  /** In every environment, failed or not, a deployment moves nothing before its whole build script has passed. */
  lemma DeployMovesAfterBuild(env: Environment, m: Machine, t: Target)
    ensures MovesAfter(env, m, Deploy(env, m, t).m, BuildScript(t, TargetColor(t, m.world)))
  {
    var color := TargetColor(t, m.world);
    var r := Deploy(env, m, t).m;
    var checked := Checks(env, m, DeployChecks(t));
    ChecksMoveNothing(env, m, DeployChecks(t));
    if checked.ok {
      var built := RunSteps(env, checked.m, RemoteSteps(t, color), t.commit);
      RemoteStepsOnlyBuild(t, color);
      StepsMoveNothing(env, checked.m, RemoteSteps(t, color), t.commit, color,
                       if color.Some? then t.singletons else {});
      NothingMovesThen(m, checked.m, built.m);
      if built.ok {
        BuildRan(env, m, t, color);
        assert built.m.trace <= r.trace;
        MovesAfterRan(env, m, built.m, r, BuildScript(t, color));
      }
    }
  }

  lemma MovesAfterRan(env: Environment, m: Machine, built: Machine, r: Machine, script: seq<Command>)
    requires NothingMoves(m, built) && Ran(env, m, built, script) && built.trace <= r.trace
    ensures MovesAfter(env, m, r, script)
  {
    PassedStays(env, built.trace, r.trace, |m.trace|, script);
    forall i | |m.trace| <= i < |built.trace| ensures !Moves(r.trace[i].command) {
      assert r.trace[i] == built.trace[i];
    }
  }

  /** A health check was answered without error between `from` and `i`. */
  ghost predicate HealthyBefore(env: Environment, trace: seq<Event>, from: nat, i: nat) {
    exists h: nat | from <= h < i && h < |trace| ::
      trace[h].command == Check(CheckHealth, false) && env(h, Check(CheckHealth, false)).ok
  }

  /** The colour's stack was started, and afterwards found healthy, between `from` and `i`. */
  ghost predicate StartedHealthyBefore(
    env: Environment, trace: seq<Event>, from: nat, i: nat, color: Color, services: set<string>)
  {
    exists s: nat | from <= s < i && s < |trace| ::
      && trace[s].command == StartStack(Some(color), services) && env(s, StartStack(Some(color), services)).ok
      && HealthyBefore(env, trace, s, i)
  }

  lemma BuildScriptEnds(t: Target, color: Color) returns (s: nat)
    ensures var script := BuildScript(t, Some(color));
            && s < |script| - 1 && script[s] == StartStack(Some(color), t.singletons)
            && script[|script| - 1] == Check(CheckHealth, false)
  {
    s := |ReadScript(t)| + |WriteScript(t)| + 3;
    assert StartScript(t, Some(color))[3] == StartStack(Some(color), t.singletons);
  }

  lemma PassedMeansHealthy(env: Environment, trace: seq<Event>, from: nat, i: nat, t: Target, color: Color)
    requires Passed(env, trace, from, BuildScript(t, Some(color))) && from + |BuildScript(t, Some(color))| <= i
    ensures StartedHealthyBefore(env, trace, from, i, color, t.singletons)
  {
    var script := BuildScript(t, Some(color));
    var s := BuildScriptEnds(t, color);
    var h := |script| - 1;
    assert trace[from + s].command == script[s] && trace[from + h].command == script[h];
    assert HealthyBefore(env, trace, from + s, i);
  }

  /**
    Before a blue/green deployment stops, starts, records, routes or activates
    anything, the target colour's stack was started and its health check passed.
   */
  lemma DeployChecksHealthFirst(env: Environment, m: Machine, t: Target, i: nat)
    requires t.blueGreen
    requires |m.trace| <= i < |Deploy(env, m, t).m.trace| && Moves(Deploy(env, m, t).m.trace[i].command)
    ensures StartedHealthyBefore(
              env, Deploy(env, m, t).m.trace, |m.trace|, i, TargetColor(t, m.world).value, t.singletons)
  {
    DeployMovesAfterBuild(env, m, t);
    PassedMeansHealthy(env, Deploy(env, m, t).m.trace, |m.trace|, i, t, TargetColor(t, m.world).value);
  }

  // ---- rollbacks ----

  lemma PlanRan(env: Environment, m: Machine, t: Target)
    requires PlanRollback(env, m, t).ok
    ensures Ran(env, m, PlanRollback(env, m, t).m, PlanScript(t))
  {
    var connect, load := Check(Connect, false), Check(LoadStandbySlot, false);
    var connected := Exec(env, m, connect);
    var loaded := Exec(env, connected, load);
    RanOne(env, m, connect);
    RanOne(env, connected, load);
    RanThen(env, m, connected, loaded, [connect], [load]);
    assert [connect] + [load] == Reads([Connect]) + Reads([LoadStandbySlot]);
    var health := (if t.blueGreen then [LoadPorts, CheckHealth] else []) + [DecodeServices];
    var healthy := Checks(env, loaded, health).m;
    ChecksRan(env, loaded, health);
    var first := Reads([Connect]) + Reads([LoadStandbySlot]) + Reads(health);
    RanThen(env, m, loaded, healthy, Reads([Connect]) + Reads([LoadStandbySlot]), Reads(health));
    if t.singletons != {} {
      var slot := Check(LoadActiveSlot, false);
      var ports := if t.blueGreen then [LoadPorts] else [];
      var active := Exec(env, healthy, slot);
      RanOne(env, healthy, slot);
      assert [slot] == Reads([LoadActiveSlot]);
      ChecksRan(env, active, ports);
      RanThen(env, healthy, active, Checks(env, active, ports).m, Reads([LoadActiveSlot]), Reads(ports));
      RanThen(env, m, healthy, Checks(env, active, ports).m, first, Reads([LoadActiveSlot]) + Reads(ports));
    } else {
      assert first + [] == first;
    }
  }

  lemma PlanMovesNothing(env: Environment, m: Machine, t: Target)
    ensures NothingMoves(m, PlanRollback(env, m, t).m)
  {
    var connected := Exec(env, m, Check(Connect, false));
    var loaded := Exec(env, connected, Check(LoadStandbySlot, false));
    NothingMovesThen(m, connected, loaded);
    var health := (if t.blueGreen then [LoadPorts, CheckHealth] else []) + [DecodeServices];
    var healthy := Checks(env, loaded, health).m;
    ChecksMoveNothing(env, loaded, health);
    NothingMovesThen(m, loaded, healthy);
    var active := Exec(env, healthy, Check(LoadActiveSlot, false));
    NothingMovesThen(m, healthy, active);
    var ports := if t.blueGreen then [LoadPorts] else [];
    ChecksMoveNothing(env, active, ports);
    NothingMovesThen(m, active, Checks(env, active, ports).m);
  }

  /** A rollback that succeeds issued exactly its plan and then the script of a cutover to a standby colour. */
  lemma RollbackRan(env: Environment, m: Machine, t: Target) returns (to: Color)
    requires DistinctRoutes(m.world.routes) && Rollback(env, m, t).ok
    ensures to == PlanRollback(env, m, t).to && IsStandby(m.world.slots.At(to))
    ensures Ran(env, m, Rollback(env, m, t).m,
                PlanScript(t) + CutoverScript(t, m.world.routes,
                                              if t.singletons == {} then None else ActiveColor(m.world.slots),
                                              to, true, true))
  {
    var p := PlanRollback(env, m, t);
    PlanRollbackSteady(env, m, t);
    PlanRan(env, m, t);
    to := p.to;
    CutoverRan(env, p.m, t, p.from, p.to, true, true);
    RanThen(env, m, p.m, Rollback(env, m, t).m, PlanScript(t),
            CutoverScript(t, m.world.routes, p.from, p.to, true, true));
  }

  /** In every environment, a rollback moves nothing before its whole plan has passed. */
  lemma RollbackMovesAfterPlan(env: Environment, m: Machine, t: Target)
    ensures MovesAfter(env, m, Rollback(env, m, t).m, PlanScript(t))
  {
    var p := PlanRollback(env, m, t);
    PlanMovesNothing(env, m, t);
    if p.ok {
      PlanRan(env, m, t);
      MovesAfterRan(env, m, p.m, Rollback(env, m, t).m, PlanScript(t));
    }
  }

  /** Before a blue/green rollback moves anything, the colour it goes back to passed its health check. */
  lemma RollbackChecksHealthFirst(env: Environment, m: Machine, t: Target, i: nat)
    requires t.blueGreen
    requires |m.trace| <= i < |Rollback(env, m, t).m.trace| && Moves(Rollback(env, m, t).m.trace[i].command)
    ensures HealthyBefore(env, Rollback(env, m, t).m.trace, |m.trace|, i)
  {
    RollbackMovesAfterPlan(env, m, t);
    assert PlanScript(t)[3] == Check(CheckHealth, false);
    assert Rollback(env, m, t).m.trace[|m.trace| + 3].command == PlanScript(t)[3];
  }

  // ---- taking routes back ----

  /** The first n routes, last first, each to the upstream its row recorded when listed. */
  predicate TookBack(m: Machine, r: Machine, routes: seq<Route>, n: nat)
    requires n <= |routes|
  {
    && m.trace <= r.trace && |r.trace| == |m.trace| + n
    && forall i | |m.trace| <= i < |r.trace| ::
         var route := routes[n - 1 - (i - |m.trace|)];
         r.trace[i].command == SetRoute(route.slug, route.upstream, true)
  }

  lemma {:induction false} UndoRoutesTakeBack(env: Environment, m: Machine, routes: seq<Route>, n: nat)
    requires n <= |routes|
    ensures TookBack(m, UndoRoutes(env, m, routes, n), routes, n)
    decreases n
  {
    if n > 0 {
      var next := Exec(env, m, SetRoute(routes[n - 1].slug, routes[n - 1].upstream, true));
      UndoRoutesTakeBack(env, next, routes, n - 1);
      var r := UndoRoutes(env, m, routes, n);
      assert r.trace[|m.trace|] == next.trace[|m.trace|];
    }
  }

  // ---- the rollback reference ----

  /** The commit that git printed: the first line, trimmed, forty hexadecimal digits. */
  ghost predicate IsHead(text: string, commit: string) {
    && |commit| == 40
    && (forall i | 0 <= i < 40 ::
          '0' <= commit[i] <= '9' || 'a' <= commit[i] <= 'f' || 'A' <= commit[i] <= 'F')
    && exists n: nat | n <= |text| :: EndsLine(text, n) && commit == Trim(text[..n])
  }

  predicate EndsLine(text: string, n: nat)
    requires n <= |text|
  {
    (n == |text| || text[n] == '\n') && '\n' !in text[..n]
  }

  /** Between `m` and `r` git's HEAD was read, and it was this commit. */
  ghost predicate HeadRead(env: Environment, m: Machine, r: Machine, commit: string) {
    exists k: nat | |m.trace| <= k < |r.trace| ::
      && r.trace[k].command == Check(ReadCommit, false) && env(k, Check(ReadCommit, false)).ok
      && IsHead(env(k, Check(ReadCommit, false)).text, commit)
  }

  lemma {:induction false} FirstLineEnds(text: string)
    ensures |FirstLine(text)| <= |text| && FirstLine(text) == text[..|FirstLine(text)|]
    ensures EndsLine(text, |FirstLine(text)|)
  {
    if text != [] && text[0] != '\n' {
      FirstLineEnds(text[1..]);
      var n := |FirstLine(text[1..])|;
      assert text[..n + 1] == [text[0]] + text[1..][..n];
    }
  }

  /** Resolving the commit keeps one pinned before, and otherwise pins the HEAD that was read. */
  lemma ResolvePinsHead(env: Environment, m: Machine, commit: Option<string>)
    requires ResolveCommit(env, m, commit).ok
    ensures var r := ResolveCommit(env, m, commit);
            if commit.Some? then r.commit == commit else r.commit.Some? && HeadRead(env, m, r.m, r.commit.value)
  {
    var text := Answer(env, m, Check(ReadCommit, false)).text;
    FirstLineEnds(text);
    assert IsHead(text, Trim(FirstLine(text)));
    var r := ResolveCommit(env, m, commit).m;
    assert r.trace[|m.trace|].command == Check(ReadCommit, false);
  }

  lemma {:induction false} StepsPinHead(env: Environment, m: Machine, steps: seq<Step>, commit: Option<string>)
    requires RunSteps(env, m, steps, commit).ok
    ensures var r := RunSteps(env, m, steps, commit);
            if commit.Some? then r.commit == commit
            else if exists i :: 0 <= i < |steps| && steps[i].resolvesCommit
            then r.commit.Some? && HeadRead(env, m, r.m, r.commit.value)
            else r.commit == None
    decreases |steps|
  {
    if steps != [] {
      var run := Exec(env, m, steps[0].command);
      var r := RunSteps(env, m, steps, commit);
      assert forall i | 1 <= i < |steps| :: steps[i] == steps[1..][i - 1];
      if steps[0].resolvesCommit {
        ResolvePinsHead(env, run, commit);
        var resolved := ResolveCommit(env, run, commit);
        StepsPinHead(env, resolved.m, steps[1..], resolved.commit);
        if commit.None? {
          HeadReadStays(env, run, resolved.m, m, r.m, resolved.commit.value);
        }
      } else {
        StepsPinHead(env, run, steps[1..], commit);
        if commit.None? && exists i :: 0 <= i < |steps| && steps[i].resolvesCommit {
          var i :| 0 <= i < |steps| && steps[i].resolvesCommit;
          assert steps[1..][i - 1].resolvesCommit;
          HeadReadStays(env, run, r.m, m, r.m, r.commit.value);
        }
      }
    }
  }

  lemma HeadReadStays(env: Environment, m: Machine, r: Machine, earlier: Machine, later: Machine, commit: string)
    requires HeadRead(env, m, r, commit) && earlier.trace <= m.trace && r.trace <= later.trace
    ensures HeadRead(env, earlier, later, commit)
  {
    var k: nat :| |m.trace| <= k < |r.trace| && r.trace[k].command == Check(ReadCommit, false)
                  && env(k, Check(ReadCommit, false)).ok && IsHead(env(k, Check(ReadCommit, false)).text, commit);
    assert later.trace[k] == r.trace[k];
  }

  /**
    What a deployment is recorded under: its trimmed image if it has one, otherwise
    the commit it was pinned to before, otherwise the HEAD it built from.
   */
  ghost predicate Reference(env: Environment, m: Machine, r: Machine, t: Target, ref: string) {
    if Trim(t.imageRef) != "" then ref == Trim(t.imageRef)
    else if t.commit.Some? then ref == Trim(t.commit.value)
    else if Trim(t.repository) != "" then HeadRead(env, m, r, ref)
    else ref == ""
  }

  lemma SyncStep(t: Target, color: Option<Color>)
    ensures (exists i :: 0 <= i < |RemoteSteps(t, color)| && RemoteSteps(t, color)[i].resolvesCommit) <==> ShouldSync(t)
  {
    if ShouldSync(t) {
      assert RemoteSteps(t, color)[1].resolvesCommit;
    }
  }

  lemma DeployReference(env: Environment, m: Machine, t: Target)
    requires Deploy(env, m, t).ok
    ensures Reference(env, m, Deploy(env, m, t).m, t, Deploy(env, m, t).ref)
  {
    var color := TargetColor(t, m.world);
    var checked := Checks(env, m, DeployChecks(t)).m;
    var built := RunSteps(env, checked, RemoteSteps(t, color), t.commit);
    StepsPinHead(env, checked, RemoteSteps(t, color), t.commit);
    SyncStep(t, color);
    if Trim(t.imageRef) == "" && t.commit.None? && Trim(t.repository) != "" {
      var head := built.commit.value;
      HeadIsTrimmed(env, checked, built.m, head);
      assert built.m.trace <= Deploy(env, m, t).m.trace;
      HeadReadStays(env, checked, built.m, m, Deploy(env, m, t).m, head);
    }
  }

  lemma HeadIsTrimmed(env: Environment, m: Machine, r: Machine, commit: string)
    requires HeadRead(env, m, r, commit)
    ensures Trim(commit) == commit
  {
    TrimKeeps(commit);
  }
}
