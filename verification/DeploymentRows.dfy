/** The deployments table and the statements that write its status column. */
module DeploymentRows {

  type Id = nat

  datatype Status = Queued | Running | Succeeded | Failed | Cancelled

  datatype Row = Row(application: nat, status: Status)

  type Table = map<Id, Row>

  predicate InProgress(row: Row) {
    row.status == Queued || row.status == Running
  }

  /** The unique index deployments_one_in_progress_per_application. */
  predicate OneInProgress(rows: Table) {
    forall a, b | a in rows && b in rows && a != b && InProgress(rows[a]) && InProgress(rows[b]) ::
      rows[a].application != rows[b].application
  }

  predicate MayCreate(rows: Table, id: Id, application: nat) {
    id !in rows && forall other | other in rows && InProgress(rows[other]) :: rows[other].application != application
  }

  predicate IsQueued(rows: Table, id: Id) {
    id in rows && rows[id].status == Queued
  }

  /** StartQueuedDeployment and CancelQueuedDeployment: a row that is no longer queued is left alone. */
  function MoveQueued(rows: Table, id: Id, status: Status): Table {
    if IsQueued(rows, id) then SetStatus(rows, id, status) else rows
  }

  /** UpdateDeploymentStatus: whatever the row's status was. */
  function SetStatus(rows: Table, id: Id, status: Status): Table {
    if id in rows then rows[id := rows[id].(status := status)] else rows
  }

  /** FailRunningDeploymentsForRecovery. */
  function FailRunning(rows: Table): Table {
    map id | id in rows :: if rows[id].status == Running then rows[id].(status := Failed) else rows[id]
  }
}
