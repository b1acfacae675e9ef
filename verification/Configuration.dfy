/**
  Configuration revisions: edits bump a counter in the transaction that changes
  the content; a deployment reads the counters first, the content later, and
  records the counters it read when it has succeeded.
 */
module Configuration {
  import opened Text
  import opened Variables

  datatype ServiceConfig = ServiceConfig(dopplerProject: string, dopplerConfig: string, variables: seq<Variable>)

  datatype Project = Project(revision: nat, variables: seq<Variable>)

  // ---- the edits ----

  /** storeProjectRuntimeVariables: an edit that changes nothing does not count. */
  function StoreProject(p: Project, variables: seq<Variable>): Project {
    if p.variables == variables then p else Project(p.revision + 1, variables)
  }

  datatype Services = Services(revision: nat, configs: map<string, ServiceConfig>)

  predicate IsEmpty(c: ServiceConfig) {
    c.dopplerProject == "" && c.variables == []
  }

  /** storeApplicationServiceRuntimeConfig: unchanged, nothing to delete, deleted, or replaced. */
  function StoreService(s: Services, name: string, c: ServiceConfig): Services {
    if name in s.configs && s.configs[name] == c then s
    else if name !in s.configs && IsEmpty(c) then s
    else if IsEmpty(c) then Services(s.revision + 1, s.configs - {name})
    else Services(s.revision + 1, s.configs[name := c])
  }

  // ---- one application and its deployments ----

  /** The counters a deployment read when it loaded its target. */
  datatype Counters = Counters(application: nat, project: nat)

  /** A repository and a branch. */
  datatype Source = Source(repository: string, branch: string)

  /**
    What a deployment rendered, and the counters as they stood when it read each
    part. `source` is the one it was created with and built from, `seen` the
    application's when the counters were read.
   */
  datatype Rendered = Rendered(
    loaded: Counters, variables: seq<Variable>, projectAt: nat, configs: map<string, ServiceConfig>, servicesAt: nat,
    source: Source, seen: Source)

  datatype Stage =
    | Claimed
    | TargetLoaded(target: Counters)
    | ProjectRead(target: Counters, variables: seq<Variable>, projectAt: nat)
    | ServicesRead(rendered: Rendered)

  /** `source` is copied into the row when it is created, `seen` noted when the target is loaded. */
  datatype Job = Job(rollback: bool, source: Source, seen: Source, stage: Stage)

  /**
    `job` is the deployment in progress (there is at most one), `marks` the
    counters of deployments marked succeeded and not recorded yet, `latest` the
    last successful deployment that was not a rollback. `movedAt` is the
    application's counter when it last changed project.
   */
  datatype State = State(
    projects: map<nat, Project>,
    project: nat,
    services: Services,
    source: Source,
    deployed: Counters,
    job: Option<Job>,
    marks: seq<Counters>,
    latest: Option<Rendered>,
    movedAt: nat)

  datatype Step =
    | EditProject(id: nat, variables: seq<Variable>)
    | EditService(name: string, config: ServiceConfig)
    | EditSource(source: Source)
    | EditApplication                       // any other setting of the application
    | Move(id: nat)
    | Begin(rollback: bool)
    | LoadTarget
    | LoadProject
    | LoadServices
    | Succeed
    | Fail
    | Mark(index: nat, ok: bool)

  function Max(a: nat, b: nat): nat {
    if a < b then b else a
  }

  function CurrentCounters(s: State): Counters
    requires s.project in s.projects
  {
    Counters(s.services.revision, s.projects[s.project].revision)
  }

  /** One atomic step; a step that is not enabled does nothing. */
  function Next(s: State, step: Step): State
    requires s.project in s.projects
    ensures Next(s, step).project in Next(s, step).projects
  {
    match step
    case EditProject(id, variables) =>
      if id in s.projects then s.(projects := s.projects[id := StoreProject(s.projects[id], variables)]) else s
    case EditService(name, config) => s.(services := StoreService(s.services, name, config))
    case EditSource(source) =>
      if source == s.source then s
      else s.(source := source, services := s.services.(revision := s.services.revision + 1))
    case EditApplication => s.(services := s.services.(revision := s.services.revision + 1))
    case Move(id) =>
      if id in s.projects
      then s.(project := id, services := s.services.(revision := s.services.revision + 1),
        movedAt := s.services.revision + 1)
      else s
    case Begin(rollback) => if s.job.None? then s.(job := Some(Job(rollback, s.source, s.source, Claimed))) else s
    case LoadTarget =>
      if s.job.Some? && s.job.value.stage.Claimed?
      then s.(job := Some(s.job.value.(seen := s.source, stage := TargetLoaded(CurrentCounters(s))))) else s
    case LoadProject =>
      if s.job.Some? && s.job.value.stage.TargetLoaded? then
        var p := s.projects[s.project];
        s.(job := Some(s.job.value.(stage := ProjectRead(s.job.value.stage.target, p.variables, p.revision))))
      else s
    case LoadServices =>
      if s.job.Some? && s.job.value.stage.ProjectRead? then
        var p := s.job.value.stage;
        var r := Rendered(p.target, p.variables, p.projectAt, s.services.configs, s.services.revision,
                          s.job.value.source, s.job.value.seen);
        s.(job := Some(s.job.value.(stage := ServicesRead(r))))
      else s
    case Succeed =>
      if s.job.None? then s
      else if s.job.value.rollback then s.(job := None)
      else if s.job.value.stage.ServicesRead? then
        var r := s.job.value.stage.rendered;
        s.(job := None, latest := Some(r), marks := s.marks + [r.loaded])
      else s
    case Fail => s.(job := None)
    case Mark(i, ok) =>
      if i < |s.marks| then
        var m := s.marks[i];
        var s' := s.(marks := s.marks[..i] + s.marks[i + 1..]);
        var d := Counters(Max(s.deployed.application, m.application), Max(s.deployed.project, m.project));
        if ok then s'.(deployed := d) else s'
      else s
  }

  function Run(s: State, steps: seq<Step>): (r: State)
    requires s.project in s.projects
    ensures r.project in r.projects
  {
    if steps == [] then s else Next(Run(s, steps[..|steps| - 1]), steps[|steps| - 1])
  }

  // ---- the property ----

  /** The application shows as up to date. */
  predicate UpToDate(s: State) {
    s.project in s.projects && s.deployed == CurrentCounters(s)
  }

  /** What the latest successful deployment rendered is what is stored now. */
  predicate RendersCurrent(s: State) {
    && s.project in s.projects
    && (s.latest.Some? ==>
          s.latest.value.variables == s.projects[s.project].variables && s.latest.value.configs == s.services.configs)
  }

  predicate Honest(s: State) {
    UpToDate(s) ==> RendersCurrent(s)
  }

  // ---- the invariant ----

  predicate Below(a: Counters, b: Counters) {
    a.application <= b.application && a.project <= b.project
  }

  /** Read at counter `at`: if the counter has not moved since, the content has not either. */
  predicate Fresh(s: State, variables: seq<Variable>, at: nat)
    requires s.project in s.projects
  {
    at <= s.projects[s.project].revision && (at == s.projects[s.project].revision ==>
      variables == s.projects[s.project].variables)
  }

  /** Everything recorded or waiting to be recorded was read no later than `c`. */
  predicate RecordedBelow(s: State, c: Counters) {
    Below(s.deployed, c) && forall i | 0 <= i < |s.marks| :: Below(s.marks[i], c)
  }

  predicate AppRecordedBelow(s: State, n: nat) {
    s.deployed.application <= n && forall i | 0 <= i < |s.marks| :: s.marks[i].application <= n
  }

  /** The project part matters for what was loaded since the application's last move. */
  predicate ProjectPart(s: State, target: Counters, variables: seq<Variable>, at: nat)
    requires s.project in s.projects
  {
    target.application >= s.movedAt ==> target.project <= at && Fresh(s, variables, at) && RecordedBelow(s, target)
  }

  /** If the application has not counted on since its target was loaded, its source has not changed either. */
  predicate SeenFresh(s: State, target: Counters, seen: Source) {
    target.application == s.services.revision ==> seen == s.source
  }

  predicate RenderedValid(s: State, r: Rendered)
    requires s.project in s.projects
  {
    && r.loaded.application <= r.servicesAt <= s.services.revision
    && (r.servicesAt == s.services.revision ==> r.configs == s.services.configs)
    && AppRecordedBelow(s, r.loaded.application)
    && SeenFresh(s, r.loaded, r.seen)
    && ProjectPart(s, r.loaded, r.variables, r.projectAt)
  }

  predicate TargetValid(s: State, c: Counters)
    requires s.project in s.projects
  {
    && Below(c, CurrentCounters(s))
    && AppRecordedBelow(s, c.application)
    && (c.application >= s.movedAt ==> RecordedBelow(s, c))
  }

  predicate JobValid(s: State, job: Job)
    requires s.project in s.projects
  {
    match job.stage
    case Claimed => true
    case TargetLoaded(target) => TargetValid(s, target) && SeenFresh(s, target, job.seen)
    case ProjectRead(target, variables, at) =>
      TargetValid(s, target) && SeenFresh(s, target, job.seen) && ProjectPart(s, target, variables, at)
    case ServicesRead(r) => TargetValid(s, r.loaded) && RenderedValid(s, r)
  }

  predicate Valid(s: State) {
    && s.project in s.projects
    && s.movedAt <= s.services.revision
    && RecordedBelow(s, CurrentCounters(s))
    && (s.job.Some? ==> JobValid(s, s.job.value))
    && (s.latest.Some? ==> RenderedValid(s, s.latest.value))
  }

  /** Moving is safe when nothing recorded, waiting or being deployed counts further than the new project. */
  predicate SafeMove(s: State, id: nat) {
    id in s.projects ==>
      && s.deployed.project <= s.projects[id].revision
      && (forall i | 0 <= i < |s.marks| :: s.marks[i].project <= s.projects[id].revision)
      && (s.job.Some? && !s.job.value.stage.Claimed? ==> LoadedBy(s.job.value.stage).project <= s.projects[id].revision)
  }

  function LoadedBy(stage: Stage): Counters
    requires !stage.Claimed?
  {
    match stage
    case TargetLoaded(target) => target
    case ProjectRead(target, _, _) => target
    case ServicesRead(r) => r.loaded
  }

  lemma ValidIsHonest(s: State)
    requires Valid(s)
    ensures Honest(s)
  {
  }

  lemma EditProjectKeepsValid(s: State, id: nat, variables: seq<Variable>)
    requires Valid(s)
    ensures Valid(Next(s, EditProject(id, variables)))
  {
  }

  lemma EditKeepsValid(s: State, step: Step)
    requires Valid(s) && (step.EditService? || step.EditSource? || step.EditApplication?)
    ensures Valid(Next(s, step))
  {
  }

  lemma MoveKeepsValid(s: State, id: nat)
    requires Valid(s) && SafeMove(s, id)
    ensures Valid(Next(s, Move(id)))
  {
  }

  lemma JobStepKeepsValid(s: State, step: Step)
    requires Valid(s) && (step.Begin? || step.LoadTarget? || step.LoadProject? || step.LoadServices? || step.Fail?)
    ensures Valid(Next(s, step))
  {
  }

  lemma SucceedKeepsValid(s: State)
    requires Valid(s)
    ensures Valid(Next(s, Succeed))
  {
  }

  /** Recording a mark keeps whatever bounded all of them. */
  lemma MarkKeepsBounds(s: State, i: nat, ok: bool)
    requires i < |s.marks| && s.project in s.projects
    ensures forall c :: RecordedBelow(s, c) ==> RecordedBelow(Next(s, Mark(i, ok)), c)
    ensures forall n :: AppRecordedBelow(s, n) ==> AppRecordedBelow(Next(s, Mark(i, ok)), n)
  {
    var s' := Next(s, Mark(i, ok));
    assert forall j | 0 <= j < |s'.marks| :: s'.marks[j] == s.marks[if j < i then j else j + 1];
  }

  lemma MarkKeepsValid(s: State, i: nat, ok: bool)
    requires Valid(s)
    ensures Valid(Next(s, Mark(i, ok)))
  {
    if i < |s.marks| {
      MarkKeepsBounds(s, i, ok);
    }
  }

  lemma StepKeepsValid(s: State, step: Step)
    requires Valid(s) && (step.Move? ==> SafeMove(s, step.id))
    ensures Valid(Next(s, step))
  {
    match step
    case EditProject(id, variables) => EditProjectKeepsValid(s, id, variables);
    case EditService(_, _) => EditKeepsValid(s, step);
    case EditSource(_) => EditKeepsValid(s, step);
    case EditApplication => EditKeepsValid(s, step);
    case Move(id) => MoveKeepsValid(s, id);
    case Begin(_) => JobStepKeepsValid(s, step);
    case LoadTarget => JobStepKeepsValid(s, step);
    case LoadProject => JobStepKeepsValid(s, step);
    case LoadServices => JobStepKeepsValid(s, step);
    case Fail => JobStepKeepsValid(s, step);
    case Succeed => SucceedKeepsValid(s);
    case Mark(i, ok) => MarkKeepsValid(s, i, ok);
  }

  /** Before anything was deployed: the recorded counters are at most the current ones. */
  predicate Start(s: State) {
    && s.project in s.projects && Below(s.deployed, CurrentCounters(s))
    && s.job.None? && s.marks == [] && s.latest.None? && s.movedAt <= s.services.revision
  }

  ghost predicate SafeMoves(s: State, steps: seq<Step>)
    requires s.project in s.projects
  {
    forall i | 0 <= i < |steps| && steps[i].Move? :: SafeMove(Run(s, steps[..i]), steps[i].id)
  }

  /**
    Over every interleaving of edits with deployments, an application that shows
    as up to date runs exactly the project and service variables stored now, as
    long as it is only ever moved to projects that have counted at least as far.
   */
  lemma {:induction false} UpToDateMeansCurrent(s: State, steps: seq<Step>)
    requires Start(s) && SafeMoves(s, steps)
    ensures Valid(Run(s, steps)) && Honest(Run(s, steps))
  {
    if steps != [] {
      var init := steps[..|steps| - 1];
      forall i | 0 <= i < |init| && init[i].Move? ensures SafeMove(Run(s, init[..i]), init[i].id) {
        assert init[..i] == steps[..i];
      }
      UpToDateMeansCurrent(s, init);
      StepKeepsValid(Run(s, init), steps[|steps| - 1]);
    }
    ValidIsHonest(Run(s, steps));
  }

  /** A rollback that succeeds ends and records nothing; any other success is the latest, and waits to be recorded. */
  lemma SucceedExactly(s: State)
    requires s.project in s.projects && s.job.Some?
    requires s.job.value.rollback || s.job.value.stage.ServicesRead?
    ensures var r := Next(s, Succeed);
            && r.job == None && r.deployed == s.deployed
            && (s.job.value.rollback ==> r.latest == s.latest && r.marks == s.marks)
            && (!s.job.value.rollback ==>
                  && r.latest == Some(s.job.value.stage.rendered)
                  && r.marks == s.marks + [s.job.value.stage.rendered.loaded])
  {
  }

  // ---- exactly when the source is current ----

  /**
    The source is not covered by that: it is copied when the deployment is created
    and the counters are read when it runs. An application that shows as up to date
    runs the source stored now if and only if its source was the same at both moments.
   */
  lemma SourceIsCurrentExactly(s: State, steps: seq<Step>)
    requires Start(s) && SafeMoves(s, steps)
    ensures var r := Run(s, steps);
            UpToDate(r) && r.latest.Some? ==>
              (r.latest.value.source == r.source <==> r.latest.value.source == r.latest.value.seen)
  {
    UpToDateMeansCurrent(s, steps);
  }

  /** From any idle state there is a run that ends up to date with a source other than the stored one. */
  lemma SourceMayLag(s: State, source: Source) returns (steps: seq<Step>)
    requires s.project in s.projects && s.job.None? && s.marks == [] && Below(s.deployed, CurrentCounters(s))
    requires source != s.source
    ensures NoMoves(steps)
    ensures var r := Run(s, steps);
            UpToDate(r) && r.source == source && r.latest.Some? && r.latest.value.source == s.source
  {
    RunThen(s, [], Begin(false));
    steps := [] + [Begin(false)];
    RunThen(s, steps, EditSource(source));
    steps := steps + [EditSource(source)];
    RunThen(s, steps, LoadTarget);
    steps := steps + [LoadTarget];
    RunThen(s, steps, LoadProject);
    steps := steps + [LoadProject];
    RunThen(s, steps, LoadServices);
    steps := steps + [LoadServices];
    var before := Run(s, steps);
    assert before.marks == [] && before.deployed == s.deployed;
    RunThen(s, steps, Succeed);
    steps := steps + [Succeed];
    assert Run(s, steps).marks == [CurrentCounters(before)];
    RunThen(s, steps, Mark(0, true));
    steps := steps + [Mark(0, true)];
  }

  // ---- exactly when a move is harmless ----

  predicate NoMoves(steps: seq<Step>) {
    forall i | 0 <= i < |steps| :: !steps[i].Move?
  }

  lemma {:induction false} RunKeepsValid(s: State, steps: seq<Step>)
    requires Valid(s) && NoMoves(steps)
    ensures Valid(Run(s, steps))
  {
    if steps != [] {
      RunKeepsValid(s, steps[..|steps| - 1]);
      StepKeepsValid(Run(s, steps[..|steps| - 1]), steps[|steps| - 1]);
    }
  }

  lemma RunThen(s: State, steps: seq<Step>, last: Step)
    requires s.project in s.projects
    ensures Run(s, steps + [last]) == Next(Run(s, steps), last)
  {
    assert (steps + [last])[..|steps|] == steps;
  }

  /** Some list of one variable that is neither of two given ones. */
  function Third(a: seq<Variable>, b: seq<Variable>): (c: seq<Variable>)
    ensures c != a && c != b
  {
    var one, two, three := [Variable("N", "1")], [Variable("N", "2")], [Variable("N", "3")];
    assert one[0] != two[0] && two[0] != three[0] && one[0] != three[0];
    if one != a && one != b then one else if two != a && two != b then two else three
  }

  /** A deployment from start to finish, without interference. */
  lemma DeployOnce(s: State) returns (steps: seq<Step>)
    requires s.project in s.projects && s.job.None? && s.marks == [] && s.deployed.application <= s.services.revision
    ensures NoMoves(steps)
    ensures var r := Run(s, steps);
            && r.projects == s.projects && r.project == s.project && r.services == s.services
            && r.deployed == Counters(s.services.revision, Max(s.deployed.project, s.projects[s.project].revision))
            && r.latest.Some? && r.latest.value.variables == s.projects[s.project].variables
  {
    RunThen(s, [], Begin(false));
    steps := [] + [Begin(false)];
    RunThen(s, steps, LoadTarget);
    steps := steps + [LoadTarget];
    RunThen(s, steps, LoadProject);
    steps := steps + [LoadProject];
    RunThen(s, steps, LoadServices);
    steps := steps + [LoadServices];
    RunThen(s, steps, Succeed);
    steps := steps + [Succeed];
    assert Run(s, steps).marks == [CurrentCounters(s)];
    RunThen(s, steps, Mark(0, true));
    steps := steps + [Mark(0, true)];
  }

  /** Editing the project until its counter reaches the recorded one. */
  lemma {:induction false} EditUntilRecorded(s: State, steps: seq<Step>) returns (more: seq<Step>)
    requires s.project in s.projects && NoMoves(steps)
    requires var r := Run(s, steps);
             && r.latest.Some? && r.deployed.application == r.services.revision
             && r.deployed.project >= r.projects[r.project].revision
             && (r.deployed.project == r.projects[r.project].revision ==>
                   r.latest.value.variables != r.projects[r.project].variables)
    ensures NoMoves(more) && !Honest(Run(s, more))
    decreases Run(s, steps).deployed.project - Run(s, steps).projects[Run(s, steps).project].revision
  {
    var r := Run(s, steps);
    more := steps;
    if r.deployed.project > r.projects[r.project].revision {
      var edit := EditProject(r.project, Third(r.projects[r.project].variables, r.latest.value.variables));
      RunThen(s, steps, edit);
      more := EditUntilRecorded(s, steps + [edit]);
    }
  }

  /**
    Moving an application with no deployment under way keeps what it shows honest
    in every continuation if and only if its recorded project counter is at most
    the new project's: GREATEST keeps the old project's count, and edits of the new
    project catch up with it.
   */
  lemma MoveHonestExactly(s: State, id: nat)
    requires Valid(s) && s.job.None? && s.marks == [] && id in s.projects
    ensures (forall steps :: NoMoves(steps) ==> Honest(Run(Next(s, Move(id)), steps)))
            <==> s.deployed.project <= s.projects[id].revision
  {
    var moved := Next(s, Move(id));
    if s.deployed.project <= s.projects[id].revision {
      MoveKeepsValid(s, id);
      forall steps | NoMoves(steps) ensures Honest(Run(moved, steps)) {
        RunKeepsValid(moved, steps);
        ValidIsHonest(Run(moved, steps));
      }
    } else {
      var steps := DeployOnce(moved);
      var more := EditUntilRecorded(moved, steps);
    }
  }

  // ---- the transactions, statement by statement ----

  /** A project's rows and counter as the database holds them. */
  class ProjectStore {
    var revision: nat
    var rows: seq<Variable>

    constructor (revision: nat, rows: seq<Variable>)
      ensures this.revision == revision && this.rows == rows
    {
      this.revision, this.rows := revision, rows;
    }

    /** projectRuntimeVariablesEqual. */
    static method VariablesEqual(existing: seq<Variable>, requested: seq<Variable>) returns (equal: bool)
      ensures equal <==> existing == requested
    {
      if |existing| != |requested| {
        return false;
      }
      var index := 0;
      while index < |existing|
        invariant 0 <= index <= |existing|
        invariant forall j | 0 <= j < index :: existing[j] == requested[j]
      {
        if existing[index].key != requested[index].key || existing[index].value != requested[index].value {
          return false;
        }
        index := index + 1;
      }
      return true;
    }

    /** storeProjectRuntimeVariables: rows and counter change together or not at all. */
    method Store(variables: seq<Variable>) returns (changed: bool)
      modifies this
      ensures Project(revision, rows) == StoreProject(Project(old(revision), old(rows)), variables)
      ensures rows == variables
      ensures changed <==> old(rows) != variables
      ensures revision == old(revision) + if old(rows) != variables then 1 else 0
    {
      var equal := VariablesEqual(rows, variables);
      if equal {
        return false;
      }
      rows := [];
      for i := 0 to |variables|
        invariant rows == variables[..i] && revision == old(revision)
      {
        rows := rows + [variables[i]];
      }
      revision := revision + 1;
      return true;
    }
  }

  /** No row says nothing; none ever does where this is the only writer. */
  predicate NoEmptyRow(configs: map<string, ServiceConfig>) {
    forall name | name in configs :: configs[name].dopplerProject != "" || configs[name].variables != []
  }

  /** An application's service configurations and counters. */
  class ApplicationStore {
    var revision: nat
    var configs: map<string, ServiceConfig>
    var deployed: Counters

    constructor (revision: nat, configs: map<string, ServiceConfig>, deployed: Counters)
      ensures this.revision == revision && this.configs == configs && this.deployed == deployed
    {
      this.revision, this.configs, this.deployed := revision, configs, deployed;
    }

    /** storeApplicationServiceRuntimeConfig for a service of the stack. */
    method StoreServiceConfig(name: string, request: ServiceConfig) returns (changed: bool)
      modifies this`revision, this`configs
      ensures Services(revision, configs) == StoreService(Services(old(revision), old(configs)), name, request)
      ensures request.dopplerProject == "" && request.variables == [] ==>
                name !in configs || (old(configs)[name] == request && configs == old(configs))
      ensures NoEmptyRow(old(configs)) ==>
                && NoEmptyRow(configs)
                && (request.dopplerProject == "" && request.variables == [] ==> name !in configs)
      ensures !(request.dopplerProject == "" && request.variables == []) ==>
                && name in configs
                && configs[name].dopplerProject == request.dopplerProject
                && configs[name].dopplerConfig == request.dopplerConfig
                && configs[name].variables == request.variables
      ensures forall other | other != name ::
                && (other in configs <==> other in old(configs))
                && (other in configs ==> configs[other] == old(configs)[other])
      ensures changed <==> configs != old(configs)
      ensures revision == old(revision) + if configs != old(configs) then 1 else 0
    {
      var found := name in configs;
      if found {
        var existing := configs[name];
        var equal := ProjectStore.VariablesEqual(existing.variables, request.variables);
        if existing.dopplerProject == request.dopplerProject && existing.dopplerConfig == request.dopplerConfig
          && equal {
          return false;
        }
      }
      var empty := request.dopplerProject == "" && |request.variables| == 0;
      if !found && empty {
        return false;
      }
      if empty {
        configs := configs - {name};
      } else {
        configs := configs[name := request];
      }
      revision := revision + 1;
      return true;
    }

    /** MarkApplicationConfigurationDeployed: the counters only ever grow, and cover what was deployed. */
    method MarkDeployed(c: Counters)
      modifies this`deployed
      ensures Below(old(deployed), deployed) && Below(c, deployed)
      ensures deployed.application in {old(deployed).application, c.application}
      ensures deployed.project in {old(deployed).project, c.project}
    {
      deployed := Counters(Max(deployed.application, c.application), Max(deployed.project, c.project));
    }
  }
}
