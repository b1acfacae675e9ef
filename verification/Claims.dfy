/**
  Creating, queueing, claiming, cancelling and recovering deployments, with any
  number of workers, entries that appear twice, and crashes at any moment.
 */
module Claims {
  import opened DeploymentRows

  type Worker = nat

  /** Where a worker is with the entry it popped. */
  datatype Phase =
    | Popped(id: Id)    // about to read the row
    | Seen(id: Id)      // read it as queued
    | Claimed(id: Id)   // StartQueuedDeployment returned the row
    | Working(id: Id)   // remote work has begun

  /**
    `enqueuing` are the API requests that have inserted their row and not pushed it
    yet, `giveUp` those whose push failed and that are about to mark the row failed.
    `started` lists every beginning of remote work, `cancelled` every row cancelled
    while queued.
   */
  datatype State = State(
    up: bool,
    rows: Table,
    queue: seq<Id>,
    enqueuing: set<Id>,
    giveUp: set<Id>,
    workers: map<Worker, Phase>,
    started: seq<Id>,
    cancelled: set<Id>)

  datatype Step =
    | Create(id: Id, application: nat)
    | Push(id: Id, ok: bool, pushed: bool)
    | MarkEnqueueFailed(id: Id, ok: bool)
    | Cancel(id: Id)
    | Pop(worker: Worker)
    | Load(worker: Worker, ok: bool)
    | Claim(worker: Worker, ok: bool, committed: bool)  // an error may hide a statement that took effect
    | Begin(worker: Worker)
    | Finish(worker: Worker, succeeded: bool, ok: bool)
    | Crash
    | RecoverInterrupted
    | RecoverQueued(ids: seq<Id>)
    | Restart

  /** The worker drops its entry. */
  function Idle(s: State, w: Worker): State {
    s.(workers := s.workers - {w})
  }

  function At(s: State, w: Worker, p: Phase): State {
    s.(workers := s.workers[w := p])
  }

  /** One atomic step; a step that is not enabled does nothing. */
  function Next(s: State, step: Step): State {
    match step
    case Create(id, application) =>
      if s.up && MayCreate(s.rows, id, application)
      then s.(rows := s.rows[id := Row(application, Queued)], enqueuing := s.enqueuing + {id}) else s
    case Push(id, ok, pushed) =>
      if id in s.enqueuing then
        var s' := s.(enqueuing := s.enqueuing - {id}, queue := if ok || pushed then s.queue + [id] else s.queue);
        if ok then s' else s'.(giveUp := s.giveUp + {id})
      else s
    case MarkEnqueueFailed(id, ok) =>
      if id in s.giveUp
      then s.(giveUp := s.giveUp - {id}, rows := if ok then SetStatus(s.rows, id, Failed) else s.rows) else s
    case Cancel(id) =>
      if s.up && IsQueued(s.rows, id)
      then s.(rows := MoveQueued(s.rows, id, Cancelled), cancelled := s.cancelled + {id}) else s
    case Pop(w) =>
      if s.up && w !in s.workers && s.queue != [] then At(s.(queue := s.queue[1..]), w, Popped(s.queue[0])) else s
    case Load(w, ok) =>
      if w in s.workers && s.workers[w].Popped? then
        if ok && IsQueued(s.rows, s.workers[w].id) then At(s, w, Seen(s.workers[w].id)) else Idle(s, w)
      else s
    case Claim(w, ok, committed) =>
      if w in s.workers && s.workers[w].Seen? then
        var id := s.workers[w].id;
        var claimed := s.(rows := MoveQueued(s.rows, id, Running));
        if ok && IsQueued(s.rows, id) then At(claimed, w, Claimed(id))
        else if committed then Idle(claimed, w) else Idle(s, w)
      else s
    case Begin(w) =>
      if w in s.workers && s.workers[w].Claimed?
      then At(s.(started := s.started + [s.workers[w].id]), w, Working(s.workers[w].id)) else s
    case Finish(w, succeeded, ok) =>
      if w in s.workers && (s.workers[w].Working? || (s.workers[w].Claimed? && !succeeded)) then
        var status := if succeeded then Succeeded else Failed;
        Idle(s.(rows := if ok then SetStatus(s.rows, s.workers[w].id, status) else s.rows), w)
      else s
    case Crash => s.(up := false, enqueuing := {}, giveUp := {}, workers := map[])
    case RecoverInterrupted => if s.up then s else s.(rows := FailRunning(s.rows))
    case RecoverQueued(ids) =>
      if s.up || exists i :: 0 <= i < |ids| && !IsQueued(s.rows, ids[i]) then s else s.(queue := s.queue + ids)
    case Restart => s.(up := true)
  }

  function Run(s: State, steps: seq<Step>): State {
    if steps == [] then s else Next(Run(s, steps[..|steps| - 1]), steps[|steps| - 1])
  }

  /** A fresh installation with whatever is left in the queue. */
  predicate Fresh(s: State) {
    && s.enqueuing == {} && s.giveUp == {} && s.workers == map[] && s.started == [] && s.cancelled == {}
    && OneInProgress(s.rows)
  }

  // ---- at most once ----

  /** The worker has claimed the row and not let go of it. */
  predicate Holding(p: Phase) {
    p.Claimed? || p.Working?
  }

  predicate Once(started: seq<Id>) {
    forall i, j | 0 <= i < j < |started| :: started[i] != started[j]
  }

  /** The row is queued no longer, and will never be again. */
  predicate Left(rows: Table, id: Id) {
    id in rows && rows[id].status != Queued
  }

  /** What a worker holds: a row that left the queue, begun exactly if listed, never cancelled. */
  predicate PhaseValid(s: State, p: Phase) {
    Holding(p) ==> Left(s.rows, p.id) && p.id !in s.cancelled && (p.Claimed? ==> p.id !in s.started)
  }

  predicate ClaimsValid(s: State) {
    && Once(s.started)
    && (forall id | id in s.started :: Left(s.rows, id))
    && (forall id | id in s.cancelled :: Left(s.rows, id) && id !in s.started)
    && (forall w | w in s.workers :: PhaseValid(s, s.workers[w]))
    && (forall v, w | v in s.workers && w in s.workers && v != w && Holding(s.workers[v]) && Holding(s.workers[w]) ::
          s.workers[v].id != s.workers[w].id)
  }

  /** No row comes back to the queue. */
  predicate MovesOn(rows: Table, rows': Table) {
    forall id | id in rows && Left(rows, id) :: Left(rows', id)
  }

  lemma MovingOnKeepsClaims(s: State, rows: Table)
    requires ClaimsValid(s) && MovesOn(s.rows, rows)
    ensures ClaimsValid(s.(rows := rows))
  {
    forall w | w in s.workers ensures PhaseValid(s.(rows := rows), s.workers[w]) {
      assert PhaseValid(s, s.workers[w]);
    }
  }

  lemma IdleKeepsClaims(s: State, w: Worker)
    requires ClaimsValid(s)
    ensures ClaimsValid(Idle(s, w))
  {
    forall v | v in Idle(s, w).workers ensures PhaseValid(Idle(s, w), Idle(s, w).workers[v]) {
      assert PhaseValid(s, s.workers[v]);
    }
  }

  lemma CancelKeepsClaims(s: State, id: Id)
    requires ClaimsValid(s)
    ensures ClaimsValid(Next(s, Cancel(id)))
  {
    var s' := Next(s, Cancel(id));
    forall w | w in s'.workers ensures PhaseValid(s', s'.workers[w]) {
      assert PhaseValid(s, s.workers[w]);
    }
  }

  lemma LookKeepsClaims(s: State, w: Worker, p: Phase)
    requires ClaimsValid(s) && !Holding(p)
    ensures ClaimsValid(At(s, w, p))
  {
    forall v | v in At(s, w, p).workers ensures PhaseValid(At(s, w, p), At(s, w, p).workers[v]) {
      assert v != w ==> PhaseValid(s, s.workers[v]);
    }
  }

  lemma ClaimKeepsClaims(s: State, w: Worker, id: Id)
    requires ClaimsValid(s) && IsQueued(s.rows, id)
    ensures ClaimsValid(At(s.(rows := MoveQueued(s.rows, id, Running)), w, Claimed(id)))
  {
    var s' := At(s.(rows := MoveQueued(s.rows, id, Running)), w, Claimed(id));
    forall v | v in s'.workers
      ensures PhaseValid(s', s'.workers[v])
      ensures v != w && Holding(s'.workers[v]) ==> s'.workers[v].id != id
    {
      assert v != w ==> PhaseValid(s, s.workers[v]);
    }
  }

  lemma BeginKeepsClaims(s: State, w: Worker)
    requires ClaimsValid(s)
    ensures ClaimsValid(Next(s, Begin(w)))
  {
    var s' := Next(s, Begin(w));
    if w in s.workers && s.workers[w].Claimed? {
      assert PhaseValid(s, s.workers[w]);
      forall v | v in s'.workers ensures PhaseValid(s', s'.workers[v]) {
        assert PhaseValid(s, s.workers[v]);
      }
    }
  }

  lemma StepKeepsClaims(s: State, step: Step)
    requires ClaimsValid(s)
    ensures ClaimsValid(Next(s, step))
  {
    match step
    case Create(id, application) =>
      if s.up && MayCreate(s.rows, id, application) {
        MovingOnKeepsClaims(s, s.rows[id := Row(application, Queued)]);
      }
    case Push(id, ok, pushed) =>
      MovingOnKeepsClaims(s, s.rows);
    case MarkEnqueueFailed(id, ok) =>
      MovingOnKeepsClaims(s, SetStatus(s.rows, id, Failed));
      MovingOnKeepsClaims(s, s.rows);
    case Cancel(id) =>
      CancelKeepsClaims(s, id);
    case Pop(w) =>
      if s.queue != [] {
        LookKeepsClaims(s, w, Popped(s.queue[0]));
      }
    case Load(w, ok) =>
      IdleKeepsClaims(s, w);
      if w in s.workers {
        LookKeepsClaims(s, w, Seen(s.workers[w].id));
      }
    case Claim(w, ok, committed) =>
      IdleKeepsClaims(s, w);
      if w in s.workers {
        MovingOnKeepsClaims(Idle(s, w), MoveQueued(s.rows, s.workers[w].id, Running));
        if IsQueued(s.rows, s.workers[w].id) {
          ClaimKeepsClaims(s, w, s.workers[w].id);
        }
      }
    case Begin(w) =>
      BeginKeepsClaims(s, w);
    case Finish(w, succeeded, ok) =>
      IdleKeepsClaims(s, w);
      if w in s.workers {
        MovingOnKeepsClaims(Idle(s, w), SetStatus(s.rows, s.workers[w].id, if succeeded then Succeeded else Failed));
      }
    case Crash =>
    case RecoverInterrupted =>
      MovingOnKeepsClaims(s, FailRunning(s.rows));
    case RecoverQueued(ids) =>
      MovingOnKeepsClaims(s, s.rows);
    case Restart =>
      MovingOnKeepsClaims(s, s.rows);
  }

  /**
    Over every run, the remote work of a deployment begins at most once, and never
    when it was cancelled while queued.
   */
  lemma {:induction false} WorkStartsAtMostOnce(s: State, steps: seq<Step>)
    requires Fresh(s)
    ensures ClaimsValid(Run(s, steps))
    ensures forall i, j | 0 <= i < j < |Run(s, steps).started| :: Run(s, steps).started[i] != Run(s, steps).started[j]
    ensures forall id | id in Run(s, steps).cancelled :: id !in Run(s, steps).started
  {
    if steps != [] {
      WorkStartsAtMostOnce(s, steps[..|steps| - 1]);
      StepKeepsClaims(Run(s, steps[..|steps| - 1]), steps[|steps| - 1]);
    }
  }

  // ---- one run at a time for each application ----

  /** A push that reports an error did not reach the queue. */
  predicate CleanPush(step: Step) {
    step.Push? && !step.ok ==> !step.pushed
  }

  /** The row of a request: nobody holds it, and while it is queued no entry and no worker knows it. */
  predicate Unknown(s: State, id: Id) {
    && id in s.rows
    && (forall w | w in s.workers && s.workers[w].id == id :: !Holding(s.workers[w]) && !IsQueued(s.rows, id))
    && (IsQueued(s.rows, id) ==> id !in s.queue)
  }

  /** No two workers have an application's deployments in hand. */
  predicate Exclusive(s: State) {
    forall v, w | v in s.workers && w in s.workers && v != w && Holding(s.workers[v]) && Holding(s.workers[w]) ::
      && s.workers[v].id in s.rows && s.workers[w].id in s.rows
      && s.rows[s.workers[v].id].application != s.rows[s.workers[w].id].application
  }

  predicate RunsExclusive(s: State) {
    && ClaimsValid(s)
    && OneInProgress(s.rows)
    && (forall id | id in s.queue :: id in s.rows)
    && (forall w | w in s.workers ::
          s.workers[w].id in s.rows && (Holding(s.workers[w]) ==> s.rows[s.workers[w].id].status == Running))
    && s.enqueuing !! s.giveUp
    && (forall id | id in s.enqueuing + s.giveUp :: Unknown(s, id))
    && (!s.up ==> s.workers == map[] && s.enqueuing == {} && s.giveUp == {})
  }

  lemma CreateKeepsExclusive(s: State, id: Id, application: nat)
    requires RunsExclusive(s)
    ensures RunsExclusive(Next(s, Create(id, application)))
  {
    StepKeepsClaims(s, Create(id, application));
    var s' := Next(s, Create(id, application));
    if s' != s {
      forall i | i in s.giveUp ensures i in s.rows {
        assert Unknown(s, i);
      }
      forall i | i in s'.enqueuing + s'.giveUp ensures Unknown(s', i) {
        assert i != id ==> Unknown(s, i);
      }
    }
  }

  lemma PushKeepsExclusive(s: State, step: Step)
    requires RunsExclusive(s) && step.Push? && CleanPush(step)
    ensures RunsExclusive(Next(s, step))
  {
    StepKeepsClaims(s, step);
    var s' := Next(s, step);
    forall i | i in s'.enqueuing + s'.giveUp ensures Unknown(s', i) {
      assert Unknown(s, i);
    }
    forall i | i in s'.queue ensures i in s'.rows {
      assert i in s.queue || Unknown(s, i);
    }
  }

  /** Only the status of a row nobody holds may change, and not back into progress. */
  predicate Settles(s: State, rows: Table) {
    && rows.Keys == s.rows.Keys
    && (forall id | id in rows ::
          && rows[id].application == s.rows[id].application
          && (InProgress(rows[id]) ==> InProgress(s.rows[id])) && (IsQueued(rows, id) ==> IsQueued(s.rows, id)))
    && (forall w | w in s.workers && Holding(s.workers[w]) && s.workers[w].id in rows ::
          rows[s.workers[w].id] == s.rows[s.workers[w].id])
  }

  lemma SettlingKeepsExclusive(s: State, rows: Table)
    requires RunsExclusive(s) && Settles(s, rows) && ClaimsValid(s.(rows := rows))
    ensures RunsExclusive(s.(rows := rows))
  {
    forall id | id in s.enqueuing + s.giveUp ensures Unknown(s.(rows := rows), id) {
      assert Unknown(s, id);
    }
  }

  lemma GivingUpKeepsExclusive(s: State, id: Id, ok: bool)
    requires RunsExclusive(s) && id in s.giveUp
    ensures RunsExclusive(Next(s, MarkEnqueueFailed(id, ok)))
  {
    assert Unknown(s, id);
    MovingOnKeepsClaims(s, SetStatus(s.rows, id, Failed));
    var t, r := s.(rows := if ok then SetStatus(s.rows, id, Failed) else s.rows), Next(s, MarkEnqueueFailed(id, ok));
    SettlingKeepsExclusive(s, t.rows);
    StepKeepsClaims(s, MarkEnqueueFailed(id, ok));
    forall i | i in r.enqueuing + r.giveUp ensures Unknown(r, i) {
      assert Unknown(t, i);
    }
  }

  lemma WorkerKeepsExclusive(s: State, step: Step)
    requires RunsExclusive(s)
    requires step.Pop? || step.Load? || step.Begin?
    ensures RunsExclusive(Next(s, step))
  {
    StepKeepsClaims(s, step);
    var s' := Next(s, step);
    forall i | i in s'.enqueuing + s'.giveUp ensures Unknown(s', i) {
      assert Unknown(s, i);
    }
  }

  lemma ClaimKeepsExclusive(s: State, step: Step)
    requires RunsExclusive(s) && step.Claim?
    ensures RunsExclusive(Next(s, step))
  {
    StepKeepsClaims(s, step);
    var s', w := Next(s, step), step.worker;
    forall v | v in s'.workers && v != w && Holding(s'.workers[v])
      ensures s'.rows[s'.workers[v].id].status == Running
    {
      assert PhaseValid(s, s.workers[v]);
    }
    forall i | i in s'.enqueuing + s'.giveUp ensures Unknown(s', i) {
      assert Unknown(s, i);
    }
  }

  lemma FinishKeepsExclusive(s: State, w: Worker, succeeded: bool, ok: bool)
    requires RunsExclusive(s)
    ensures RunsExclusive(Next(s, Finish(w, succeeded, ok)))
  {
    StepKeepsClaims(s, Finish(w, succeeded, ok));
    var s' := Next(s, Finish(w, succeeded, ok));
    forall i | i in s'.enqueuing + s'.giveUp ensures Unknown(s', i) {
      assert Unknown(s, i);
    }
  }

  lemma StepKeepsExclusive(s: State, step: Step)
    requires RunsExclusive(s) && CleanPush(step)
    ensures RunsExclusive(Next(s, step))
  {
    StepKeepsClaims(s, step);
    match step
    case Create(id, application) => CreateKeepsExclusive(s, id, application);
    case Push(_, _, _) => PushKeepsExclusive(s, step);
    case MarkEnqueueFailed(id, ok) =>
      if id in s.giveUp {
        GivingUpKeepsExclusive(s, id, ok);
      }
    case Cancel(id) =>
      if s.up && IsQueued(s.rows, id) {
        MovingOnKeepsClaims(s, MoveQueued(s.rows, id, Cancelled));
        SettlingKeepsExclusive(s, MoveQueued(s.rows, id, Cancelled));
      }
    case Pop(_) => WorkerKeepsExclusive(s, step);
    case Load(_, _) => WorkerKeepsExclusive(s, step);
    case Begin(_) => WorkerKeepsExclusive(s, step);
    case Claim(_, _, _) => ClaimKeepsExclusive(s, step);
    case Finish(w, succeeded, ok) => FinishKeepsExclusive(s, w, succeeded, ok);
    case Crash =>
    case RecoverInterrupted =>
      MovingOnKeepsClaims(s, FailRunning(s.rows));
      if !s.up {
        SettlingKeepsExclusive(s, FailRunning(s.rows));
      }
    case RecoverQueued(ids) =>
    case Restart =>
  }

  predicate AllClean(steps: seq<Step>) {
    forall i | 0 <= i < |steps| :: CleanPush(steps[i])
  }

  lemma {:induction false} CleanRunKeepsExclusive(s: State, steps: seq<Step>)
    requires RunsExclusive(s) && AllClean(steps)
    ensures RunsExclusive(Run(s, steps)) && Exclusive(Run(s, steps))
  {
    if steps != [] {
      CleanRunKeepsExclusive(s, steps[..|steps| - 1]);
      StepKeepsExclusive(Run(s, steps[..|steps| - 1]), steps[|steps| - 1]);
    }
  }

  /** No two workers have an application's deployments in hand at once, if failed pushes stay out of the queue. */
  lemma OneRunPerApplication(s: State, steps: seq<Step>)
    requires Fresh(s) && (forall id | id in s.queue :: id in s.rows) && AllClean(steps)
    ensures RunsExclusive(Run(s, steps)) && Exclusive(Run(s, steps))
  {
    CleanRunKeepsExclusive(s, steps);
  }

  // ---- when a terminal row keeps its status ----

  const EMPTY := State(true, map[], [], {}, {}, map[], [], {})

  lemma RunThen(s: State, steps: seq<Step>, last: Step)
    ensures Run(s, steps + [last]) == Next(Run(s, steps), last)
  {
    assert (steps + [last])[..|steps|] == steps;
  }

  predicate HeldBySome(s: State, id: Id) {
    exists w :: w in s.workers && s.workers[w].id == id && Holding(s.workers[w])
  }

  /** The row ended with this status, and no worker and no request is left that could still write another. */
  predicate Ended(s: State, id: Id, status: Status) {
    && id in s.rows && s.rows[id].status == status && !InProgress(s.rows[id]) && !HeldBySome(s, id)
    && (status == Failed || id !in s.enqueuing + s.giveUp)
  }

  lemma StepKeepsEnded(s: State, step: Step, id: Id, status: Status)
    requires Ended(s, id, status)
    ensures Ended(Next(s, step), id, status)
  {
    assert forall w | w in s.workers && s.workers[w].id == id :: !Holding(s.workers[w]);
  }

  lemma {:induction false} RunKeepsEnded(s: State, steps: seq<Step>, id: Id, status: Status)
    requires Ended(s, id, status)
    ensures Ended(Run(s, steps), id, status)
  {
    if steps != [] {
      var init := steps[..|steps| - 1];
      RunKeepsEnded(s, init, id, status);
      StepKeepsEnded(Run(s, init), steps[|steps| - 1], id, status);
    }
  }

  /** A worker that still holds a row can finish it either way. */
  lemma FinishHeld(s: State, id: Id, succeeded: bool) returns (steps: seq<Step>)
    requires HeldBySome(s, id) && id in s.rows
    ensures Run(s, steps).rows == SetStatus(s.rows, id, if succeeded then Succeeded else Failed)
  {
    var w :| w in s.workers && s.workers[w].id == id && Holding(s.workers[w]);
    steps := [];
    if succeeded && s.workers[w].Claimed? {
      RunThen(s, [], Begin(w));
      steps := [] + [Begin(w)];
    }
    var r := Run(s, steps);
    assert r.rows == s.rows && w in r.workers && r.workers[w].id == id;
    RunThen(s, steps, Finish(w, succeeded, true));
    steps := steps + [Finish(w, succeeded, true)];
    FinishWrites(r, w, succeeded);
  }

  lemma FinishWrites(s: State, w: Worker, succeeded: bool)
    requires w in s.workers && (s.workers[w].Working? || (s.workers[w].Claimed? && !succeeded))
    ensures Next(s, Finish(w, succeeded, true)).rows
            == SetStatus(s.rows, s.workers[w].id, if succeeded then Succeeded else Failed)
  {
  }

  /** A request still under way gives up, and marks its row failed whatever its status is by then. */
  lemma GiveUp(s: State, steps: seq<Step>, id: Id) returns (more: seq<Step>)
    requires id in Run(s, steps).enqueuing + Run(s, steps).giveUp && AllClean(steps)
    ensures AllClean(more)
    ensures Run(s, more).rows == SetStatus(Run(s, steps).rows, id, Failed)
    ensures Run(s, more).cancelled == Run(s, steps).cancelled
  {
    more := steps;
    if id in Run(s, steps).enqueuing {
      RunThen(s, more, Push(id, false, false));
      more := more + [Push(id, false, false)];
    }
    RunThen(s, more, MarkEnqueueFailed(id, true));
    more := more + [MarkEnqueueFailed(id, true)];
  }

  /**
    Terminal states are not absorbing in the statements alone. From any state, a
    finished row keeps its status in every continuation if and only if no worker
    holds it, and it has failed already or no request is left that could give up on it.
   */
  lemma TerminalStaysExactly(s: State, id: Id)
    requires id in s.rows && !InProgress(s.rows[id])
    ensures (forall steps :: id in Run(s, steps).rows && Run(s, steps).rows[id].status == s.rows[id].status)
            <==> !HeldBySome(s, id) && (s.rows[id].status == Failed || id !in s.enqueuing + s.giveUp)
  {
    var status := s.rows[id].status;
    if Ended(s, id, status) {
      forall steps ensures id in Run(s, steps).rows && Run(s, steps).rows[id].status == status {
        RunKeepsEnded(s, steps, id, status);
      }
    } else if HeldBySome(s, id) {
      var steps := FinishHeld(s, id, status == Failed);
      assert Run(s, steps).rows[id].status != status;
    } else {
      var steps := GiveUp(s, [], id);
      assert Run(s, steps).rows[id].status == Failed;
    }
  }

  /** Where runs are exclusive no worker holds a finished row, and the request is all that matters. */
  lemma TerminalStaysWhereExclusive(s: State, id: Id)
    requires RunsExclusive(s) && id in s.rows && !InProgress(s.rows[id])
    ensures (forall steps :: id in Run(s, steps).rows && Run(s, steps).rows[id].status == s.rows[id].status)
            <==> s.rows[id].status == Failed || id !in s.enqueuing + s.giveUp
  {
    TerminalStaysExactly(s, id);
  }

  /** Such a state is reached: a row cancelled before its request has pushed it. */
  lemma CancelledMayTurnFailed() returns (steps: seq<Step>)
    ensures 0 in Run(EMPTY, steps).cancelled && Run(EMPTY, steps).rows == map[0 := Row(7, Failed)]
  {
    RunThen(EMPTY, [], Create(0, 7));
    steps := [] + [Create(0, 7)];
    assert Run(EMPTY, steps).rows == map[0 := Row(7, Queued)];
    RunThen(EMPTY, steps, Cancel(0));
    steps := steps + [Cancel(0)];
    assert Run(EMPTY, steps).rows == map[0 := Row(7, Cancelled)];
    steps := GiveUp(EMPTY, steps, 0);
  }

  // ---- and a queued row does run ----

  lemma BeginClaimed(s: State, steps: seq<Step>, w: Worker, id: Id) returns (more: seq<Step>)
    requires AllClean(steps) && w in Run(s, steps).workers && Run(s, steps).workers[w] == Claimed(id)
    ensures AllClean(more)
    ensures var r := Run(s, steps);
            Run(s, more) == r.(started := r.started + [id], workers := r.workers[w := Working(id)])
  {
    RunThen(s, steps, Begin(w));
    more := steps + [Begin(w)];
  }

  lemma FinishWorking(s: State, steps: seq<Step>, w: Worker, id: Id, succeeded: bool) returns (more: seq<Step>)
    requires AllClean(steps) && w in Run(s, steps).workers && Run(s, steps).workers[w] == Working(id)
    ensures AllClean(more)
    ensures var r := Run(s, steps);
            Run(s, more) == r.(rows := SetStatus(r.rows, id, if succeeded then Succeeded else Failed),
                               workers := r.workers - {w})
  {
    RunThen(s, steps, Finish(w, succeeded, true));
    more := steps + [Finish(w, succeeded, true)];
  }

  /** From the head of the queue to its end: claimed, begun once, and finished by its outcome. */
  lemma QueuedRunsThrough(s: State, steps: seq<Step>, w: Worker, id: Id, succeeded: bool) returns (more: seq<Step>)
    requires AllClean(steps) && Run(s, steps).up && w !in Run(s, steps).workers
    requires Run(s, steps).queue == [id] && IsQueued(Run(s, steps).rows, id)
    ensures AllClean(more)
    ensures var r, e := Run(s, steps), Run(s, more);
            && e.started == r.started + [id] && e.queue == [] && e.workers == r.workers
            && e.rows == r.rows[id := Row(r.rows[id].application, if succeeded then Succeeded else Failed)]
  {
    var r := Run(s, steps);
    more := Dispatch(s, steps, w, id);
    more := BeginClaimed(s, more, w, id);
    more := FinishWorking(s, more, w, id, succeeded);
    assert r.workers[w := Claimed(id)][w := Working(id)] - {w} == r.workers;
  }

  /** An entry whose row is no longer queued is dropped when it is looked at, and its worker is free again. */
  lemma StaleEntryIsDropped(s: State, w: Worker, ok: bool)
    requires s.up && w !in s.workers && s.queue != [] && !IsQueued(s.rows, s.queue[0])
    ensures Run(s, [Pop(w), Load(w, ok)]) == s.(queue := s.queue[1..])
  {
    RunThen(s, [], Pop(w));
    RunThen(s, [Pop(w)], Load(w, ok));
    assert [] + [Pop(w)] == [Pop(w)] && [Pop(w)] + [Load(w, ok)] == [Pop(w), Load(w, ok)];
    assert s.workers[w := Popped(s.queue[0])] - {w} == s.workers;
  }

  /** A restart fails what was running, keeps everything else, and appends the rows given to the queue. */
  lemma RestartRecovers(s: State, ids: seq<Id>)
    requires forall i | 0 <= i < |ids| :: IsQueued(s.rows, ids[i])
    ensures var r := Run(s, [Crash, RecoverInterrupted, RecoverQueued(ids), Restart]);
            && r.up && r.queue == s.queue + ids && r.workers == map[] && r.started == s.started
            && r.rows.Keys == s.rows.Keys
            && forall id | id in s.rows ::
                 r.rows[id] == if s.rows[id].status == Running then s.rows[id].(status := Failed) else s.rows[id]
  {
    RunThen(s, [], Crash);
    RunThen(s, [Crash], RecoverInterrupted);
    RunThen(s, [Crash, RecoverInterrupted], RecoverQueued(ids));
    RunThen(s, [Crash, RecoverInterrupted, RecoverQueued(ids)], Restart);
    assert [] + [Crash] == [Crash];
    assert [Crash] + [RecoverInterrupted] == [Crash, RecoverInterrupted];
    assert [Crash, RecoverInterrupted] + [RecoverQueued(ids)] == [Crash, RecoverInterrupted, RecoverQueued(ids)];
    assert [Crash, RecoverInterrupted, RecoverQueued(ids)] + [Restart]
           == [Crash, RecoverInterrupted, RecoverQueued(ids), Restart];
  }

  // ---- a push that reports an error and arrives all the same ----

  /** A dirty push of a row that left the queue is harmless: its entry will be dropped. */
  lemma LatePushKeepsExclusive(s: State, id: Id)
    requires RunsExclusive(s) && id in s.enqueuing && !IsQueued(s.rows, id)
    ensures RunsExclusive(Next(s, Push(id, false, true)))
  {
    StepKeepsClaims(s, Push(id, false, true));
    var s' := Next(s, Push(id, false, true));
    assert Unknown(s, id);
    forall i | i in s'.enqueuing + s'.giveUp ensures Unknown(s', i) {
      assert Unknown(s, i);
    }
  }

  function FreshWorker(workers: map<Worker, Phase>): (w: Worker)
    ensures w !in workers
  {
    FreshAbove(workers.Keys, 0)
  }

  function FreshAbove(used: set<nat>, w: nat): (r: nat)
    ensures r >= w && r !in used
    decreases |used|
  {
    if w in used then FreshAbove(used - {w}, w + 1) else w
  }

  /** A worker pops entries it cannot load until the last one is at the head. */
  lemma {:induction false} DrainTo(s: State, steps: seq<Step>, w: Worker) returns (more: seq<Step>)
    requires AllClean(steps) && Run(s, steps).up && w !in Run(s, steps).workers && Run(s, steps).queue != []
    ensures AllClean(more)
    ensures Run(s, more) == Run(s, steps).(queue := [Run(s, steps).queue[|Run(s, steps).queue| - 1]])
    decreases |Run(s, steps).queue|
  {
    more := steps;
    if |Run(s, steps).queue| > 1 {
      more := DropHead(s, steps, w);
      more := DrainTo(s, more, w);
    }
  }

  /** A worker pops an entry it cannot load. */
  lemma DropHead(s: State, steps: seq<Step>, w: Worker) returns (more: seq<Step>)
    requires AllClean(steps) && Run(s, steps).up && w !in Run(s, steps).workers && Run(s, steps).queue != []
    ensures AllClean(more) && Run(s, more) == Run(s, steps).(queue := Run(s, steps).queue[1..])
  {
    var r := Run(s, steps);
    RunThen(s, steps, Pop(w));
    more := steps + [Pop(w)];
    assert Run(s, more) == At(r.(queue := r.queue[1..]), w, Popped(r.queue[0]));
    RunThen(s, more, Load(w, false));
    more := more + [Load(w, false)];
    assert (r.workers[w := Popped(r.queue[0])]) - {w} == r.workers;
  }

  /** A worker takes the only entry of the queue and claims its row. */
  lemma Dispatch(s: State, steps: seq<Step>, w: Worker, id: Id) returns (more: seq<Step>)
    requires AllClean(steps) && Run(s, steps).up && w !in Run(s, steps).workers
    requires Run(s, steps).queue == [id] && IsQueued(Run(s, steps).rows, id)
    ensures AllClean(more)
    ensures var r := Run(s, steps);
            Run(s, more) == r.(queue := [], rows := SetStatus(r.rows, id, Running),
              workers := r.workers[w := Claimed(id)])
  {
    var r := Run(s, steps);
    RunThen(s, steps, Pop(w));
    more := steps + [Pop(w)];
    assert Run(s, more) == At(r.(queue := []), w, Popped(id));
    RunThen(s, more, Load(w, true));
    more := more + [Load(w, true)];
    assert Run(s, more) == At(r.(queue := []), w, Seen(id));
    RunThen(s, more, Claim(w, true, true));
    more := more + [Claim(w, true, true)];
  }

  /** A second deployment of an application none of whose rows is in progress is created, pushed and claimed. */
  lemma CreateAndDispatch(s: State, steps: seq<Step>, w: Worker, id: Id, application: nat) returns (more: seq<Step>)
    requires AllClean(steps) && Run(s, steps).up && w !in Run(s, steps).workers
    requires Run(s, steps).queue == [] && MayCreate(Run(s, steps).rows, id, application)
    ensures AllClean(more)
    ensures Run(s, more).rows == Run(s, steps).rows[id := Row(application, Running)]
    ensures Run(s, more).workers == Run(s, steps).workers[w := Claimed(id)]
  {
    RunThen(s, steps, Create(id, application));
    more := steps + [Create(id, application)];
    RunThen(s, more, Push(id, true, true));
    more := more + [Push(id, true, true)];
    assert Run(s, more).queue == [id];
    more := Dispatch(s, more, w, id);
  }

  /** Once such an entry is claimed its row is marked failed under the worker, and a second run begins. */
  lemma DirtyPushAllowsTwoRuns(s: State, id: Id) returns (steps: seq<Step>)
    requires RunsExclusive(s) && id in s.enqueuing && IsQueued(s.rows, id)
    ensures AllClean(steps) && !Exclusive(Run(Next(s, Push(id, false, true)), steps))
  {
    var t := Next(s, Push(id, false, true));
    var v := FreshWorker(t.workers);
    steps := DrainTo(t, [], v);
    steps := Dispatch(t, steps, v, id);
    RunThen(t, steps, MarkEnqueueFailed(id, true));
    steps := steps + [MarkEnqueueFailed(id, true)];
    var r := Run(t, steps);
    var application, other := s.rows[id].application, FreshAbove(r.rows.Keys, 0);
    assert r.rows == SetStatus(s.rows, id, Failed);
    var w := FreshWorker(r.workers);
    steps := CreateAndDispatch(t, steps, w, other, application);
    var e := Run(t, steps);
    assert e.workers[v] == Claimed(id) && e.workers[w] == Claimed(other);
    assert e.rows[id].application == e.rows[other].application;
  }

  /**
    A push that reports an error keeps every clean continuation exclusive if and
    only if it did not arrive or the row had left the queue by then.
   */
  lemma DirtyPushExactly(s: State, id: Id, pushed: bool)
    requires RunsExclusive(s) && id in s.enqueuing
    ensures (forall steps | AllClean(steps) :: Exclusive(Run(Next(s, Push(id, false, pushed)), steps)))
            <==> !(pushed && IsQueued(s.rows, id))
  {
    var t := Next(s, Push(id, false, pushed));
    if pushed && IsQueued(s.rows, id) {
      var steps := DirtyPushAllowsTwoRuns(s, id);
      assert AllClean(steps) && !Exclusive(Run(t, steps));
    } else {
      if pushed {
        LatePushKeepsExclusive(s, id);
      } else {
        StepKeepsExclusive(s, Push(id, false, pushed));
      }
      forall steps | AllClean(steps) ensures Exclusive(Run(t, steps)) {
        CleanRunKeepsExclusive(t, steps);
      }
    }
  }
}
