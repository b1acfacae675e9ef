# The deployment engine of deploy-manager, modelled and proved in Dafny

deploy-manager takes a deployment queued in PostgreSQL and Redis, runs it at most once, builds the idle colour of a
blue/green pair over SSH, moves singleton services and proxy routes across, activates the slot, and takes the earlier
moves back when a later one fails. This project models that engine and the renderers, parsers and counters around it,
and proves what holds at every step and over whole histories.

`dafny verify dfyconfig.toml` checks everything.

How the parts fit together:

- **Site, Protocol, RunnerObject**: a run is a sequence of remote commands and SQL statements. An *environment* answers
  each command, at each moment, with success or failure; a failed compose command may have changed any subset of its
  services. `Protocol` gives a run as a function of those answers, `RunnerObject.Runner` is the same run as methods that
  change the site step by step, each proved equal to its function. The trace of a run keeps every intermediate state.
- **Addresses, Scripts, Outcomes**: which column of a row a colour stands for; what a run issues, in order, written out
  command by command; and what the methods promise their callers.
- **RouteMoves, Cutovers, Singletons, Runs**: the theorems about every environment: all or nothing, no singleton on both
  colours, and agreement of rows, proxy, singletons and slot over every history of deployments and rollbacks.
- **Limits**: where the plain claims fail, with the exact condition under which they hold.
- **DeploymentRows, Claims, Startup**: the deployments table, the queue, workers, cancellation, crashes and recovery.
- **Configuration**: configuration revisions as edits and deployments interleave.
- **LogStream, LogBuses**: streaming a log by history and live events, and the in-process bus.
- **EnvFiles, ProjectVariables, VariableLayers**: env files, their size accounting, and the layers of variables.
- **ShellQuoting, RoutePorts, ComposePorts, Inventory, RateLimits**: shell quoting, port pairs of routes, compose short
  port syntax, the credential inventory and the request limiter.
- **Text, Ordering, Deduplication, Variables**: shared vocabulary.

Hypotheses are named predicates: `Reliable` (commands that take something back succeed, a failed route command leaves its
route file alone, no route row disappears while it is promoted), `UndoStopsStop`, `RollbackCanFinish`, `CleanPush`,
`SafeMove`, `Complete`. `Limits`, `Claims`, `Configuration` and `LogStream` give the exact conditions behind them.

Three places where the code differs from what one would expect, all modelled as the code has them: restoring singletons
starts the old colour even if stopping the new one failed; a rollback reads the active colour only when the application
has singleton services; and the configuration revisions are read when a deployment runs, though its repository and
branch are taken when it is created.

## Model

| member | source | states |
|---|---|---|
| `Runs.HistoryKeepsAgreement` | internal/deployments/runner.go:197-307 | Over every sequence of deployments and rollbacks: between runs, once a slot is active, every route is recorded and served at its colour and singletons run there only; at every intermediate state no singleton runs twice; every rebuild is of the next colour, which once a slot is active is the other one while all routes are at the active one |
| `Runs.RebuildHitsServingExactly` | internal/deployments/runner.go:612-630 | A rebuild hits a colour that serves traffic, without an active slot, if and only if some route is served at its blue upstream; with one, if and only if some route has the same upstream for both colours |
| `Limits.StrandedColorIsRebuilt` | internal/deployments/runner.go:293-303 | After a first deployment whose activation failed the routes are at blue and no slot is active, so the next deployment rebuilds the colour that serves |
| `Runs.SuccessOwnsTheActiveSlot` | internal/deployments/runner.go:278-304 | In every environment, from every site with at most one active slot, an accepted deployment that succeeds has a non-empty rollback reference and leaves exactly one active slot, the next colour's, recorded by itself |
| `Runs.CutoverSlots` | internal/deployments/runner.go:283-304 | A cutover changes the slots by its own activation only, and only when it succeeds |
| `Runs.DeployKeepsAgreement` | internal/deployments/runner.go:197-307 | One deployment keeps that agreement, first or later, failed or not, and success makes the colour that was not active the active one |
| `Runs.RollbackKeepsAgreement` | internal/deployments/runner.go:543-610 | One rollback keeps that agreement |
| `Runs.RollbackAllOrNothing` | internal/deployments/runner.go:543-610 | A failed rollback leaves the world exactly as it was; a successful one settles it on the standby colour and swaps the slots |
| `Runs.CutoverWithoutSingletons` | internal/deployments/runner.go:562-606 | The same for the tail of a rollback that never loaded the previous colour, as long as its activation does not fail |
| `Runs.DeployFirst` | internal/deployments/runner.go:278-304 | The first deployment, in any environment: failure leaves no active slot, success leaves blue serving every route, running the singletons and its own slot, with a rollback reference, the only active one |
| `Runs.CutoverFirst` | internal/deployments/runner.go:278-304 | Without a previous colour success means routes recorded and served, singletons running and the slot activated, whatever failed on the way; failure leaves the slots alone |
| `Runs.ApplyRoutesServes` | internal/deployments/runner.go:813-866 | In any environment, success of applying routes means each route is recorded and served at the colour's upstream |
| `Addresses.ApplyRoutesAddresses` | internal/deployments/runner.go:901-915 | By the columns of the rows, in any environment: after success each route is recorded and served at its trimmed blue column for blue, its trimmed green column for green, and without a colour at what it recorded |
| `Addresses.PrepareRoutesExactly` | internal/deployments/runner.go:875-893 | A route set is refused exactly when a route's column for the colour is blank (as long as nothing else fails), and whenever one is |
| `Addresses.BlankIsRefused` | internal/deployments/runner.go:824-832 | One blank column refuses the whole set before anything moves |
| `Addresses.DeployAddresses` | internal/deployments/runner.go:197-307 | A deployment that succeeds has every route at its column for the target colour; outside blue/green at the address recorded before |
| `Addresses.StandaloneKeepsSite` | internal/deployments/runner.go:278-292 | Outside blue/green a deployment never touches singletons or slots |
| `Addresses.RollbackAddresses` | internal/deployments/runner.go:543-610 | A rollback that succeeds has every route at its column for a colour that was on standby |
| `Runs.SlotStatementsKeepOneActive` | internal/db/core.sql.go:14-23 | Under any interleaving of slot statements at most one slot is active, no slot row is lost, and an activation of an existing slot leaves that one active |
| `Cutovers.DeployAllOrNothing` | internal/deployments/runner.go:278-304 | With a previous colour: an error leaves rows, proxy, singletons and active slot as they were; success settles all of them on the other colour and leaves the previous slot on standby (whose slot is active, in every environment, is `Runs.SuccessOwnsTheActiveSlot`) |
| `Cutovers.FailedActivationUndone` | internal/deployments/runner.go:293-303 | After a failed activation, applying the previous routes and restoring the singletons returns the site to what it was |
| `Cutovers.CutoverAllOrNothing` | internal/deployments/runner.go:283-304 | The shared tail of deploy and rollback leaves the world equal to what it was, or settled on the other colour |
| `Cutovers.SwitchAllOrNothing` | internal/deployments/runner.go:632-664 | Moving singletons either restores exactly the services that ran or leaves them on the new colour only, even when stops and starts fail halfway |
| `Cutovers.RestoreUndoes` | internal/deployments/runner.go:679-698 | Restoring from any half-moved state brings back exactly the services that ran before |
| `Cutovers.ReapplyReturns` | internal/deployments/runner.go:293-303 | Applying the previous colour's routes after a failed activation returns rows and proxy to what they were |
| `Cutovers.AcceptedHasRef` | internal/deployments/runner.go:484-515 | Every accepted deployment that built its candidate has a rollback reference: the image or a pinned commit |
| `Scripts.DeployReference` | internal/deployments/runner.go:727-732 | The reference is the trimmed image if there is one, otherwise the commit pinned before, otherwise the HEAD that was read while this deployment ran |
| `Scripts.ResolvePinsHead` | internal/deployments/runner.go:484-515 | HEAD is the first line that git printed, trimmed, forty hexadecimal digits; an earlier pin is kept |
| `Scripts.DeployRan` | internal/deployments/runner.go:197-307 | A deployment that succeeds issued exactly the written-out script, in order, and every command was answered without error: reading, sync when it builds from source, environment files, configuration check, images, stack, prepared singletons, health check, slot, singletons, routes, activation |
| `Scripts.DeployMovesAfterBuild` | internal/deployments/remote_steps.go:438-497 | In any environment, failed or not, a deployment moves nothing before its whole build script was issued and answered without error |
| `Scripts.DeployChecksHealthFirst` | internal/deployments/remote_steps.go:492-495 | Before a blue/green deployment stops, starts, records, routes or activates anything, the target colour's stack was started and afterwards passed its health check |
| `Scripts.RollbackRan` | internal/deployments/runner.go:543-610 | A rollback that succeeds issued exactly its plan and the script of a cutover to a standby colour |
| `Scripts.RollbackChecksHealthFirst` | internal/deployments/runner.go:734-754 | Before a blue/green rollback moves anything a health check was answered without error |
| `Scripts.UndoRoutesTakeBack` | internal/deployments/runner.go:895-899 | Taking routes back issues one command for each, last first, to the upstream its row recorded |
| `Cutovers.RunStepsPin` | internal/deployments/runner.go:484-515 | A resolved commit is never blank, and a commit pinned before is kept as it is |
| `Cutovers.RunStepsClear` | internal/deployments/remote_steps.go:438-497 | Building a candidate changes nothing but that colour's own singleton containers, wherever it stops |
| `RouteMoves.ApplyRoutesAllOrNothing` | internal/deployments/runner.go:813-866 | Applying routes: an error leaves rows and proxy as they were, success records and serves every route at the colour (which address that is, is `Addresses.ApplyRoutesAddresses`) and touches no other route file |
| `RouteMoves.RecordRoutesOutcome` | internal/deployments/runner.go:849-864 | Promotion records every upstream, or the proxy is taken back and nothing changed |
| `RouteMoves.SetRoutesMoves` | internal/deployments/runner.go:834-847 | Setting routes one by one ends with all of them served at the colour, or with all taken back |
| `RouteMoves.UndoRoutesRestores` | internal/deployments/runner.go:895-899 | Taking back the first n routes, last first, restores exactly the served upstreams |
| `RouteMoves.MovedBack` | internal/deployments/runner.go:293-303 | Moving routes away and back leaves no trace in rows or proxy |
| `Singletons.DeployWatched` | internal/deployments/runner.go:197-307 | At every intermediate state of a deployment, whatever fails, no singleton runs on both colours and only the next, inactive colour is rebuilt, given that each restoring stop stops its services (even where it reports an error) |
| `Singletons.RollbackWatched` | internal/deployments/runner.go:543-610 | The same at every state of a rollback |
| `Singletons.SwitchWatched` | internal/deployments/runner.go:632-664 | The same while singletons move |
| `Singletons.RestoreWatched` | internal/deployments/runner.go:679-698 | The same while singletons are restored |
| `Singletons.RunStepsWatched` | internal/deployments/remote_steps.go:438-497 | The same while the candidate is built |
| `Singletons.PlanRollbackSteady` | internal/deployments/runner.go:543-580 | What a rollback reads before it moves anything changes nothing, and it has a previous colour exactly when there are singletons |
| `Limits.FirstDeployAllOrNothingExactly` | internal/deployments/runner.go:293-303 | A first deployment that fails leaves the traffic alone in every reliable environment if and only if the routes were at blue already |
| `Limits.RollbackAllOrNothingExactly` | internal/deployments/runner.go:562-606 | A rollback without singletons that fails leaves the traffic alone if and only if both colours have the same upstreams |
| `Limits.FailedUndoStopOverlaps` | internal/deployments/runner.go:684-693 | Restoring starts the old colour even if its stop failed; no singleton then runs on both colours if and only if the stop hit every running one that the start brought back |
| `Limits.FailedRouteIsNotTakenBack` | internal/deployments/runner.go:834-847 | Names the route whose command failed; rows and proxy are as before if and only if that command left its route file alone or was to serve what the row recorded |
| `Limits.MissedRowsExactly` | internal/deployments/runner.go:856-863 | When promotion misses rows the proxy goes back but rows keep what was written; nothing changed if and only if the rows still there recorded it already |
| `Limits.SharedRouteFileExactly` | internal/proxy/commands.go:303-314 | Two domains share a route file exactly when they differ only in dots against hyphens |
| `RunnerObject.Runner.Deploy` | internal/deployments/runner.go:197-307 | The imperative deployment does exactly what `Protocol.Deploy` says; in any environment nothing moves before the candidate was found healthy, success means the written-out script was followed, the routes are at their columns, the reference is the image or the commit and this deployment's slot is the active one; from a settled site a reliable environment ends settled on the other colour or as before |
| `RunnerObject.Runner.Rollback` | internal/deployments/runner.go:543-610 | The imperative rollback does exactly what `Protocol.Rollback` says; in any environment nothing moves before the health check passed, success means plan and cutover were followed to the newest standby colour, with the routes at its columns; from a settled site it ends settled there or with nothing changed |
| `RunnerObject.Runner.CutOver` | internal/deployments/runner.go:283-304 | The imperative tail does exactly what `Protocol.Cutover` says; success issued exactly its script and leaves the routes at the new colour's columns |
| `RunnerObject.Runner.ApplyProxyRoutes` | internal/deployments/runner.go:813-866 | Applying routes with its loops: success records and serves each at its column and issues exactly the script, a blank column is refused before anything moves |
| `RunnerObject.Runner.PrepareProxyRoutes` | internal/deployments/runner.go:824-832 | The preparing loop stops at the first route that cannot be prepared; it succeeds only if no column of the colour is blank |
| `RunnerObject.Runner.SetProxyRoutes` | internal/deployments/runner.go:834-847 | The loop that grows the list of applied routes; success serves each listed route at its column |
| `RunnerObject.Runner.RollbackProxyRoutes` | internal/deployments/runner.go:895-899 | The backward loop issues one command for each applied route, last first, to the upstream its row recorded |
| `RunnerObject.Runner.SwitchSingletonServices` | internal/deployments/runner.go:632-664 | Does exactly what `Protocol.Switch` says; success issued exactly stop, start and verify |
| `RunnerObject.Runner.RestoreSingletonServices` | internal/deployments/runner.go:679-698 | Does exactly what `Protocol.Restore` says |
| `RunnerObject.Runner.RunRemoteSteps` | internal/deployments/runner.go:258-277 | The loop over the remote steps; success issued every step in order, reading and pinning the commit after a sync, each answered without error |
| `RunnerObject.Runner.ResolveSourceCommit` | internal/deployments/runner.go:484-515 | Reads HEAD, refuses what is not a commit id, keeps a commit pinned before and otherwise pins the HEAD that was read |
| `RunnerObject.DesiredUpstreams` | internal/deployments/runner.go:849-854 | The map handed to the promotion holds each row's address by its column and nothing else |
| `Claims.WorkStartsAtMostOnce` | internal/deployments/runner.go:83-93 | Over every run with any workers, duplicate entries, crashes and recoveries, each deployment's remote work begins at most once, and never after it was cancelled while queued |
| `Claims.QueuedRunsThrough` | internal/deployments/queue.go:108-148 | A queued row at the head of the queue can be claimed, begun exactly once and finished by its outcome |
| `Claims.StaleEntryIsDropped` | internal/deployments/queue.go:130-152 | An entry whose row is no longer queued is dropped without effect |
| `Claims.RestartRecovers` | internal/deployments/queue.go:56-97 | A restart fails what was running, keeps every other row and appends the rows given to the queue |
| `Claims.OneRunPerApplication` | internal/db/core.sql.go:3419-3426 | No two workers ever hold deployments of one application, if a push that reports an error did not reach the queue |
| `Claims.StepKeepsClaims` | internal/deployments/queue.go:108-148 | Every step of workers, requests, crashes and recovery keeps the claim invariant |
| `Claims.StepKeepsExclusive` | internal/httpapi/deployments.go:243-259 | Every step with a clean push keeps the one-run-per-application invariant |
| `Claims.CancelledMayTurnFailed` | internal/db/core.sql.go:3651-3658 | Such a state is reached: from an empty installation, a row cancelled before its request has pushed it turns failed |
| `Claims.TerminalStaysExactly` | internal/db/core.sql.go:3651-3658 | From any state, a finished row keeps its status in every continuation if and only if no worker holds it, and it has failed already or no request is left that could give up on it |
| `Claims.TerminalStaysWhereExclusive` | internal/db/core.sql.go:3651-3658 | Where runs are exclusive no worker holds a finished row, so only the request matters |
| `Claims.DirtyPushAllowsTwoRuns` | internal/httpapi/deployments.go:243-259 | From any state, when a push of a queued row reports an error but arrives, two workers can come to hold deployments of one application |
| `Claims.DirtyPushExactly` | internal/httpapi/deployments.go:243-259 | A push that reports an error keeps every clean continuation exclusive if and only if it did not arrive or the row had left the queue |
| `Startup.FirstSeenExactly` | internal/deployments/queue.go:130-148 | The entries that run are exactly the pending rows that occur in the list, each once |
| `Startup.FirstSeenInOrder` | internal/deployments/queue.go:108-128 | They run in the order of their first occurrence |
| `Startup.Dispatcher.RestartAndDrain` | internal/deployments/queue.go:45-97 | After a restart and a drain: the oldest waiting rows, at most 100, were appended oldest first; each waiting row that was listed ran once, in order of first occurrence, and ended by its outcome; nothing is in progress if and only if every waiting row was listed, hence always with at most 100 of them |
| `Startup.Dispatcher.Drain` | internal/deployments/queue.go:108-128 | Draining terminates with an empty list; the queued rows listed ran once each in order of first occurrence and ended by their outcome, no other row changed |
| `Startup.Dispatcher.Handle` | internal/deployments/queue.go:130-148 | An entry runs exactly if its row exists and is queued; the row then ends by its outcome and nothing else changes |
| `Startup.Dispatcher.RecoverQueued` | internal/deployments/queue.go:56-75 | Appends the oldest queued rows, oldest first, as many as the limit (100 by default); none left out is older than one taken |
| `Startup.TakenAreOldest` | internal/db/core.sql.go:2962-2968 | The rows listed for recovery are the oldest queued ones in order of creation, distinct, as many as the limit allows |
| `Startup.Dispatcher.RecoverInterrupted` | internal/deployments/queue.go:77-97 | No row comes or goes, every running row is failed, every other row is unchanged, so none is running |
| `Startup.Dispatcher.StartQueued` | internal/db/core.sql.go:3419-3426 | Claims a row exactly if it is queued, and changes nothing else |
| `Configuration.UpToDateMeansCurrent` | internal/db/core.sql.go:3126-3132 | Over every interleaving of edits with deployments, an application whose recorded revisions equal the current ones runs exactly the project and service variables stored now, as long as it moves only to projects that have counted at least as far |
| `Configuration.SourceIsCurrentExactly` | internal/db/core.sql.go:1350-1368 | Such an application runs the repository and branch stored now if and only if they were the same when the deployment was created and when it read the revisions |
| `Configuration.SourceMayLag` | internal/db/core.sql.go:340-352 | From any idle state there is a run that ends up to date with a source other than the stored one |
| `Configuration.MoveHonestExactly` | internal/db/core.sql.go:3126-3132 | Moving an idle application keeps that true in every continuation if and only if its recorded project revision is at most the new project's |
| `Configuration.StepKeepsValid` | internal/deployments/runner.go:130-154 | Every step of edits, reads and records keeps the invariant behind it |
| `Configuration.SucceedExactly` | internal/deployments/runner.go:130-154 | A rollback that succeeds records nothing; any other success is the latest and waits to be recorded |
| `Configuration.ProjectStore.Store` | internal/httpapi/project_variables.go:95-138 | Afterwards the rows are the ones requested; the counter goes up by one exactly if they differ from before |
| `Configuration.ProjectStore.VariablesEqual` | internal/httpapi/project_variables.go:184-194 | True exactly when the two lists are equal |
| `Configuration.ApplicationStore.StoreServiceConfig` | internal/httpapi/application_service_variables.go:119-191 | Afterwards the service's row is gone when the request says nothing, and otherwise equals the request field by field; every other row is as before; the counter goes up by one exactly if the rows changed |
| `Configuration.ApplicationStore.MarkDeployed` | internal/db/core.sql.go:3126-3132 | Recorded counters never fall and cover what was deployed |
| `LogStream.IdsOnlyGrow` | internal/httpapi/deployment_logs.go:58-99 | Over every interleaving, numbered lines reach a client in strictly increasing order, all above its Last-Event-ID |
| `LogStream.NothingIsMissed` | internal/httpapi/deployment_logs.go:58-114 | If the history reaches back far enough and holds every line dropped on the way, what was sent is a gapless beginning of the later lines, and all of them once the client has caught up |
| `LogStream.NothingIsMissedExactly` | internal/httpapi/deployment_logs.go:102-114 | For a client that has caught up, all later lines were sent once each if and only if the history reached back far enough and held every line that was dropped |
| `LogStream.SentIsHistoryThenLater` | internal/httpapi/deployment_logs.go:67-99 | What reaches a client is its history followed by exactly those received lines that are above it |
| `LogStream.StepKeepsStream` | internal/deployments/runner.go:156-171 | Every step of writer, bus and client keeps the invariant behind it, whatever is dropped |
| `LogStream.AdvanceInOrder` | internal/httpapi/deployment_logs.go:152-160 | The filter sends an id only above everything numbered sent before |
| `LogStream.WriteHistory` | internal/httpapi/deployment_logs.go:67-75 | The history loop sends exactly what the filter lets through |
| `LogStream.HistoryIsNewest` | internal/httpapi/deployment_logs.go:102-114 | Without a Last-Event-ID the history is the newest lines, at most 500: whatever it leaves out is older |
| `LogStream.HistoryIsNext` | internal/httpapi/deployment_logs.go:102-114 | After a Last-Event-ID the history is the lines that follow, at most 500: whatever later line it leaves out is newer |
| `LogStream.UnnumberedIsSent` | internal/httpapi/deployment_logs.go:152-160 | The filter lets through every line that could not be stored |
| `LogStream.ChannelIsBounded` | internal/deployments/logbus.go:35-63 | Over every run a channel holds at most 32 events |
| `LogBuses.LogBus.Publish` | internal/deployments/logbus.go:35-53 | Every open channel of the event's deployment with room ends with exactly its old events and then the new one, a full one stays as it is, no other channel changes |
| `LogBuses.LogBus.Subscribe` | internal/deployments/logbus.go:62-84 | A fresh, empty, open channel registered for its deployment only |
| `LogBuses.LogBus.Close` | internal/deployments/logbus.go:72-82 | Unregistered and closed at once, so nothing is ever sent on a closed channel |
| `EnvFiles.EnvFileRoundTrip` | internal/deployments/remote_steps.go:725-738 | Reading the rendered file line by line gives back exactly the valid-key variables, carriage returns removed, one line each, the lines in order |
| `EnvFiles.RenderRuntimeExactly` | internal/deployments/remote_steps.go:740-764 | A file is refused exactly if a variable with a valid key holds a NUL or has more than 8192 bytes, or the file has more than 65536 |
| `EnvFiles.ReplacementsAreOneEscape` | internal/deployments/remote_steps.go:811-819 | The six successive replacements equal one per-character escape |
| `EnvFiles.UnescapeInverts` | internal/deployments/remote_steps.go:811-819 | Reading an escaped value gives it back without carriage returns |
| `EnvFiles.EscapedIsOneLine` | internal/deployments/remote_steps.go:811-819 | No value produces an extra line |
| `EnvFiles.LineDecodes` | internal/deployments/remote_steps.go:725-738 | Each line decodes to its key and value |
| `ProjectVariables.Normalize` | internal/httpapi/project_variables.go:140-182 | Accepts exactly the lists that satisfy the rules written out by column, returns each variable with its key trimmed and its value unchanged, sorted by key, and these render without error to a file exactly as long as counted |
| `ProjectVariables.CheckVariables` | internal/httpapi/project_variables.go:144-176 | The loop accepts exactly the lists of distinct acceptable variables and sums their rendered sizes |
| `ProjectVariables.CheckVariable` | internal/httpapi/project_variables.go:148-175 | The checks on one variable, and its exact rendered line length |
| `ProjectVariables.RenderedVariableSize` | internal/httpapi/project_variables.go:220-229 | The size of one variable is the exact length of its line with the newline |
| `ProjectVariables.AcceptedRenders` | internal/deployments/remote_steps.go:740-764 | Every accepted list renders without error under the 65536 and 8192 byte limits |
| `ProjectVariables.FileSize` | internal/httpapi/project_variables.go:220-229 | The summed sizes are the exact byte length of the rendered file |
| `ProjectVariables.WriteEnvFile` | internal/deployments/remote_steps.go:725-738 | The rendering loop gives the file that the round trip is about |
| `VariableLayers.HighestLayerWins` | internal/deployments/runner.go:320-396 | For every service and key the value is the one of the highest layer that defines it: generated, service Doppler, service, stack Doppler, stack, application Doppler, project |
| `VariableLayers.RowOrderIsIrrelevant` | internal/deployments/runner.go:341-396 | The order of the configuration rows changes nothing |
| `VariableLayers.MergeIsLayering` | internal/deployments/runner.go:462-482 | A merged list is sorted with unique keys and prefers the second list |
| `VariableLayers.MergeRuntimeVariables` | internal/deployments/runner.go:462-482 | The map-filling loop, whatever order the map is read in, gives that merged list |
| `ShellQuoting.QuotedIsOneWord` | internal/stringutil/stringutil.go:23-25 | By POSIX quoting rules ShellQuote(s) is read as one word equal to s, for every s |
| `ShellQuoting.QuotedReads` | internal/stringutil/stringutil.go:23-25 | Wherever it stands, a quoted value adds exactly its text to the word being read |
| `ShellQuoting.CommandReads` | internal/deployments/remote_steps.go:499-505 | A command followed by quoted services is read as its own tokens and those services |
| `ShellQuoting.ScriptArrives` | internal/proxy/commands.go:224-225 | A script quoted for bash -lc arrives as one word |
| `ShellQuoting.TwoStagesRead` | internal/proxy/commands.go:224-225 | Read in two stages, words quoted inside a quoted script come back unchanged |
| `ShellQuoting.ArgumentsInjective` | internal/deployments/remote_steps.go:499-505 | Different service lists never give the same argument text |
| `ShellQuoting.ComposeServiceArguments` | internal/deployments/remote_steps.go:499-505 | The joined text reads back as the list |
| `RoutePorts.CollectPorts` | internal/deployments/remote_steps.go:631-680 | Succeeds exactly when every considered name is valid and no name has two pairs; by the columns, each variable has the ports of a row that asks for it, each row that asks is listed, and the main pair is that of DEPLOY_PORT, else of the first row with a port, else 3101 and 3102; a refusal names the first offending route |
| `RoutePorts.PairsIgnoreOrder` | internal/deployments/remote_steps.go:631-680 | However the routes are ordered: both refused or both taken, with the same name-to-pair list, and the same main pair if one names DEPLOY_PORT |
| `RoutePorts.ListIgnoresOrder` | internal/deployments/remote_steps.go:655-667 | The whole list, service columns included, ignores the order when routes of one name agree on the service |
| `RoutePorts.OrderMatters` | internal/deployments/remote_steps.go:655-667 | Whenever they do not agree, two orders of the same routes give different lists |
| `ComposePorts.MappingRoundTrip` | internal/httpapi/github_repositories.go:791-814 | For every host, published port in its four notations, container port and protocol, reading the joined text gives those parts back if and only if no slash is in the protocol or, without one, in the host |
| `ComposePorts.PortRangeExactly` | internal/httpapi/github_repositories.go:791-814 | A port is accepted exactly from 1 to 65535, as a container port and as a published one |
| `ComposePorts.AtoiReadsSigns` | internal/httpapi/github_repositories.go:791-802 | A number may carry a sign, as strconv.Atoi reads it |
| `ComposePorts.PublishedRoundTrip` | internal/httpapi/github_repositories.go:868-891 | A number, $NAME, ${NAME} and ${NAME:-number} are read as what they mean |
| `ComposePorts.ComposePublishedPort` | internal/httpapi/github_repositories.go:868-891 | What is accepted has a valid variable or none, and a port in range, or none with a variable |
| `ComposePorts.ComposePort` | internal/httpapi/github_repositories.go:791-814 | What is accepted has a container port in range and, as protocol, what follows the last slash |
| `ComposePorts.PortsSplit` | internal/httpapi/github_repositories.go:834-845 | The container and published parts are found whatever the host holds, brackets and colons included |
| `ComposePorts.LastComposePortSeparator` | internal/httpapi/github_repositories.go:847-866 | The backward loop finds the last colon that has only balanced text after it, or reports that there is none |
| `Inventory.MergeCredentialInventoryItems` | internal/httpapi/credential_inventory_normalize.go:111-134 | The loop with its index map gives one item per credential, in first-seen order, with the identity of the first item about it, of each permission and usage key the entry said first, and the status revoked if any item is, else rotating, else unknown, else active |
| `Inventory.MergedMeaning` | internal/httpapi/credential_inventory_normalize.go:111-160 | A merged item has of each permission and usage key exactly the entry said first and misses no key that was said; its status is one some item has and none exceeds |
| `Inventory.MergedIsTheUnion` | internal/httpapi/credential_inventory_normalize.go:111-210 | Where no field holds a NUL, a merged item lists exactly the union of the usages and grants exactly the union of the permissions, the first-named source standing for those that differ in nothing else |
| `Inventory.MergedKeys` | internal/httpapi/credential_inventory_normalize.go:111-138 | Merging keeps the set of credentials, has each once, and stays normal |
| `Inventory.MergeTwoIsNormal` | internal/httpapi/credential_inventory_normalize.go:125-131 | The re-normalisation whose error is discarded cannot fail |
| `Inventory.MergeInPieces` | internal/httpapi/credential_inventory_normalize.go:111-134 | Merging part of a batch first makes no difference |
| `Inventory.MergedIsSettled` | internal/httpapi/credential_inventory_normalize.go:111-134 | Merging twice is merging once |
| `Inventory.BatchIsSettled` | internal/httpapi/credential_inventory_normalize.go:63-81 | A normalised batch is accepted again and changes no more |
| `Inventory.NormalizedItemIsNormal` | internal/httpapi/credential_inventory_normalize.go:24-61 | The items normalising returns are exactly those it leaves alone |
| `Inventory.ItemKeyIsProviderAndRef` | internal/httpapi/credential_inventory_normalize.go:136-138 | For allowed providers equal keys mean equal provider and reference |
| `Inventory.KeyIsTheTripleExactly` | internal/httpapi/credential_inventory_normalize.go:179 | The joined key of a permission or usage stands for one triple if and only if no field holds a NUL |
| `Inventory.TopStatusIsHighest` | internal/httpapi/credential_inventory_normalize.go:140-160 | The merged status is one some item has and none is higher |
| `Inventory.TopStatusByWord` | internal/httpapi/credential_inventory_normalize.go:140-160 | The merged status is revoked if and only if some item is, otherwise rotating if and only if some item is, otherwise unknown if and only if some item is, otherwise active |
| `Inventory.NormalizeItemExactly` | internal/httpapi/credential_inventory_normalize.go:24-61 | Which items are accepted, by their columns, and what becomes of each; a blank status is active |
| `Inventory.ToLowerExactly` | internal/httpapi/credential_inventory_normalize.go:26 | Upper-case letters of a provider become lower case, everything else stays |
| `Text.TrimTakesPadding` | internal/httpapi/credential_inventory_normalize.go:25 | Trimming takes exactly the white space off both ends |
| `Inventory.CleanExactly` | internal/httpapi/credential_inventory_normalize.go:162-210 | Which permissions and usages are accepted, by their columns; a blank source is the connector's |
| `Inventory.BatchAcceptedExactly` | internal/httpapi/credential_inventory_normalize.go:63-81 | A batch is accepted exactly if it has one to 500 items, each acceptable |
| `Deduplication.NormalizeAll` | internal/httpapi/credential_inventory_normalize.go:162-187 | The loop shared by both normalisers refuses at the first bad value and otherwise keeps the first of each key |
| `Deduplication.NormalizeExactly` | internal/httpapi/credential_inventory_normalize.go:162-210 | Accepted exactly when every value is; the result is the first of each key among the cleaned values |
| `Deduplication.FirstOfEachExactly` | internal/httpapi/credential_inventory_normalize.go:162-210 | No key twice, none lost, and an element is kept exactly when nothing before it has its key |
| `RateLimits.IntervalAdmitsUnderTwice` | internal/httpapi/rate_limit.go:15-41 | With times in order, any half-open interval as long as the window lets a client through at most twice the maximum less one times |
| `RateLimits.BoundIsReached` | internal/httpapi/rate_limit.go:15-41 | For every maximum and any window longer than one time unit some requests reach that bound |
| `RateLimits.WindowNumbersItsRequests` | internal/httpapi/rate_limit.go:24-30 | A counted window numbers its requests from its first one on, so exactly the first `max` of them pass |
| `RateLimits.NewWindowExactly` | internal/httpapi/rate_limit.go:24-30 | A request opens a window exactly if it is the first or a window length has passed since the last one began, and is then admitted |
| `RateLimits.RateLimiter.Allow` | internal/httpapi/rate_limit.go:23-31 | The locked section decides a request by its own client's times and leaves every other client alone |

## Left out

- SSH, Tailscale, Docker, Redis and HTTP transport, the Doppler CLI, GitHub tokens and notifications: an environment answers each command instead.
- Text: strings are sequences of bytes, one character each; trimming removes ASCII white space only, and upper and lower case are ASCII.
- The Caddyfile editor inside the proxy command: a route command sets the upstream its route file serves. The status column of route rows, written when a route fails, is not tracked.
- Building a route command, resolving DNS and rendering the remote scripts: checks that may fail, without a model of their text.
- Crashes between promotion and activation, and two control-plane processes recovering at once: outside the hypotheses of `Runs`.
- Edits of routes, proxy type or singleton services while a history runs: `Runs.HistoryKeepsAgreement` takes them as fixed.
- Which of two standby slots is newer: the environment chooses.
- The snapshot-based redeploy check, which reads a view and migrations that are not part of this model.
- Limits.SharedRouteFileExactly: valid lower-case domains only, where the slug differs from the domain in its dots alone.
- VariableLayers.HighestLayerWins: the generated artifact variables are given as a list, since their values come from the image reference.
- ProjectVariables.Normalize: which keys and values look like secrets is given by two predicates; the error texts are not modelled. The stored order assumes a database collation that compares bytes.
- ShellQuoting.CommandReads: commands whose unquoted text needs expansion, patterns, comments or double quotes are refused by the reader, so nothing is claimed about them. A NUL byte, which no shell word can hold, is read as any other character.
- RoutePorts.CollectPorts: the port of an upstream URL and the middle of a managed port name (service name, port and hash) are given, since URL parsing and FNV are library code.
- ComposePorts.ComposePort: the mapping form of a port, which reads YAML fields, is not modelled.
- Inventory.BatchIsSettled: which references look like secrets is given by a predicate, and error texts are not modelled.
- RateLimits.RateLimiter.Allow: a client without a record starts a window; the code gets there because the distance from the zero time saturates.
- LogStream.NothingIsMissed: one writer for each deployment, as one control-plane process has (a single worker appends and publishes a deployment's lines); lines that two processes publish out of order are not modelled. The Redis relay may drop any event.
- LogStream.NothingIsMissedExactly: the same single writer.
- The React front end, authentication, redaction, audit metadata, terminal handling and the single-field validators: each is settled by reading one branch.
