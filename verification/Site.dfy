/**
  The state a blue/green run changes, and what each remote command and SQL
  statement does to it when it succeeds and when it fails.
 */
module Site {
  import opened Text

  datatype Color = Blue | Green

  function Other(c: Color): Color {
    if c == Blue then Green else Blue
  }

  datatype PerColor<T> = PerColor(blue: T, green: T) {
    function At(c: Color): T {
      if c == Blue then blue else green
    }

    function With(c: Color, value: T): PerColor<T> {
      if c == Blue then this.(blue := value) else this.(green := value)
    }
  }

  /** A row of proxy_routes: `upstream` is upstream_url, the one recorded as applied. */
  datatype Route = Route(id: nat, slug: string, blue: string, green: string, upstream: string)

  /** proxyRouteUpstream: no colour means the recorded upstream. */
  function Upstream(r: Route, color: Option<Color>): Option<string> {
    match color
    case None => Some(r.upstream)
    case Some(c) =>
      var url := Trim(if c == Blue then r.blue else r.green);
      if url != "" then Some(url) else None
  }

  datatype SlotStatus = Active | Standby

  /** A row of application_deployment_slots; `ref` is image_ref, the rollback reference. */
  datatype Slot = Slot(status: SlotStatus, ref: string, deployment: nat)

  /**
    One application on one server: its route rows, the upstream the proxy serves
    for each route file, the singleton services running in each colour's compose
    project, and its slot rows.
   */
  datatype World = World(
    routes: seq<Route>,
    served: map<string, string>,
    running: PerColor<set<string>>,
    slots: PerColor<Option<Slot>>)

  predicate IsActive(slot: Option<Slot>) {
    slot.Some? && slot.value.status == Active
  }

  predicate IsStandby(slot: Option<Slot>) {
    slot.Some? && slot.value.status == Standby
  }

  predicate AtMostOneActive(slots: PerColor<Option<Slot>>) {
    !(IsActive(slots.blue) && IsActive(slots.green))
  }

  /** GetActiveDeploymentSlot; the order of two active rows never matters, see AtMostOneActive. */
  function ActiveColor(slots: PerColor<Option<Slot>>): Option<Color> {
    if IsActive(slots.blue) then Some(Blue) else if IsActive(slots.green) then Some(Green) else None
  }

  /** Reads and checks that may fail but change nothing tracked here. */
  datatype Reading =
    | Connect | LoadVariables | LoadServiceVariables | LoadActiveSlot | LoadStandbySlot
    | DecodeServices | LoadPorts | AuthorizeSource | RenderSteps
    | PrepareDirectory | SyncRepository | ReadCommit | PinCommit | WriteEnvironment | WriteServiceFile
    | SelectColor | ValidateCompose | FetchImages | CheckHealth
    | ListRoutes | PrepareRoute | MarkRouteFailed

  /**
    One remote command or SQL statement. `undo` marks the commands a run issues
    to take back what it did before.
   */
  datatype Command =
    | Check(what: Reading, undo: bool)
    | StartStack(color: Option<Color>, services: set<string>)
    | PrepareSingletons(target: Color, services: set<string>)
    | Stop(from: Color, services: set<string>, undo: bool)
    | Start(to: Color, services: set<string>, undo: bool)
    | Verify(of: Color, services: set<string>)
    | SetRoute(slug: string, url: string, undo: bool)
    | Promote(desired: map<nat, string>, undo: bool)
    | UpsertSlot(slot: Color, ref: string, deployment: nat)
    | Activate(active: Color, rollback: bool)

  /**
    What the environment answers. `touched` are the services (or the route file) a
    failing command changed all the same, and the services that had exited when
    they were verified; `missed` are route rows that were gone when promoted;
    `text` is what the command printed.
   */
  datatype Outcome = Outcome(ok: bool, touched: set<string>, missed: set<nat>, text: string)

  /** Any environment at all: an answer to every command at every moment. */
  type Environment = (nat, Command) -> Outcome

  function Hit(out: Outcome, services: set<string>): set<string> {
    if out.ok then services else services * out.touched
  }

  function Promoted(routes: seq<Route>, desired: map<nat, string>, missed: set<nat>): (r: seq<Route>)
    ensures |r| == |routes|
  {
    seq(|routes|, i requires 0 <= i < |routes| =>
      if routes[i].id in desired && routes[i].id !in missed
      then routes[i].(upstream := desired[routes[i].id]) else routes[i])
  }

  /** ActivateDeploymentSlot: every active or standby row is rewritten in one statement. */
  function Activated(slots: PerColor<Option<Slot>>, color: Color): PerColor<Option<Slot>> {
    PerColor(Restamped(slots.blue, color == Blue), Restamped(slots.green, color == Green))
  }

  function Restamped(slot: Option<Slot>, active: bool): Option<Slot> {
    if slot.Some? then Some(slot.value.(status := if active then Active else Standby)) else None
  }

  function Effect(w: World, c: Command, out: Outcome): World {
    match c
    case Check(_, _) => w
    case StartStack(color, services) =>
      // `up -d --scale service=0` removes the singleton containers of that project.
      if color.None? then w
      else w.(running := w.running.With(color.value, w.running.At(color.value) - Hit(out, services)))
    case PrepareSingletons(color, services) =>
      // `up --no-start --force-recreate` leaves fresh containers stopped.
      w.(running := w.running.With(color, w.running.At(color) - Hit(out, services)))
    case Stop(color, services, _) =>
      w.(running := w.running.With(color, w.running.At(color) - Hit(out, services)))
    case Start(color, services, _) =>
      w.(running := w.running.With(color, w.running.At(color) + Hit(out, services)))
    case Verify(color, services) =>
      w.(running := w.running.With(color, w.running.At(color) - services * out.touched))
    case SetRoute(slug, url, _) =>
      if out.ok || slug in out.touched then w.(served := w.served[slug := url]) else w
    case Promote(desired, _) =>
      if out.ok then w.(routes := Promoted(w.routes, desired, out.missed)) else w
    case UpsertSlot(color, ref, deployment) =>
      if out.ok then w.(slots := w.slots.With(color, Some(Slot(Standby, ref, deployment)))) else w
    case Activate(color, _) =>
      if out.ok then w.(slots := Activated(w.slots, color)) else w
  }

  datatype Event = Event(command: Command, before: World, after: World)

  /** A world together with everything that was done to it so far. */
  datatype Machine = Machine(world: World, trace: seq<Event>)

  function Answer(env: Environment, m: Machine, c: Command): Outcome {
    env(|m.trace|, c)
  }

  function Exec(env: Environment, m: Machine, c: Command): (r: Machine)
    ensures m.trace <= r.trace
  {
    var w := Effect(m.world, c, Answer(env, m, c));
    Machine(w, m.trace + [Event(c, m.world, w)])
  }

  /** A procedure's end: the machine it leaves and whether it returned without error. */
  datatype Ended = Ended(m: Machine, ok: bool)

  function Do(env: Environment, m: Machine, c: Command): (r: Ended)
    ensures m.trace <= r.m.trace
  {
    Ended(Exec(env, m, c), Answer(env, m, c).ok)
  }
}
