# Onboarding and OS provisioning of edge nodes: a verified model

A Dafny model of the state machines by which edge nodes are onboarded, provisioned and deleted, and of
some of the transformations around them, with proofs about all runs, all inputs and all interleavings.
`dafny verify dfyconfig.toml` checks everything.

The system has two stores that several programs write to: the Inventory, which holds a desired and a
current state for every Host and Instance, and the Tinkerbell server, which holds one workflow object
per node.

* **Workers** (`WorkerProtocol`, `WorkerTurn`, `StatusDetail`). Any number of tink-workers poll the
  context of a workflow, decide whether it is their turn, run a block of actions and report each one.
  The protocol is a state machine over polls, acknowledged and lost reports, results and crashes; the
  worker's loop is a method whose trace is proved to be a run of that machine, and the progress text is
  proved to name the action the machine is at.
* **Reconcilers** (`Inventory`, `InstanceReconciler`, `InstanceOutcomes`, `HostDeletion`, `JointRuns`,
  `Lifecycle`). One reconciliation is
  a function of a snapshot, the stores and the answers of the external calls; classes that mutate their
  copy and write it back are proved to compute it, and `InstanceOutcomes` says what it comes to, case by
  case. `Lifecycle` takes one node through all of it. `JointRuns` interleaves both reconcilers with users,
  the Host Resource Manager, the onboarding streams, the node and the workflow engine. Each kind is
  reconciled one resource at a time, but both reconcilers and the stream requests work from what they read
  earlier, which may be out of date when they write.
* **Onboarding** (`NodeRequest`, `NodeIdentity`, `OnboardStream`, `StreamOutcomes`, `StreamRaces`,
  `StreamClient`, `CreateNodes`, `JointLinks`). How a request is validated and matched to a host, also
  when hosts share a placeholder for an unreadable serial number; the stream that hands out credentials,
  served concurrently request by request, with its exact replies and writes in `StreamOutcomes` and, in
  `StreamRaces`, with lookups and answers of different streams interleaved; the client with its
  back-off; and the interactive path with its retries, which writes the hosts the stream looks up.
  `JointLinks` proves that what a request or a call does to a host is a step of `JointRuns`.
* **Transformations** (`Firewall`, `FlattenStruct`, `EnsureDir`, `EnsureCalls`, `DriveDetection`, `ActionTimings`,
  `ReconcilerId`, `Strings`).

## What the environment is assumed to do

* A report attempt of a worker is applied and acknowledged, applied with its acknowledgement lost, or
  leaves no trace; it is not delivered after the attempt has returned. Worker ids are distinct, the
  action list is not empty, and a context is read atomically when it is received.
* The status of an action in the workflow object is the last report about it.
* A desired host state leaves UNTRUSTED only for DELETED and never leaves DELETED; HRM does not revive a
  DELETED instance; Inventory removes an instance only once it is DELETED and asked to be.
* The workflow object of a node is named after its UUID, so there is at most one, and creating it again finds
  it existing.
* The writes of one reconciliation happen together, but not with its reads. So do those of one stream request
  in `JointRuns` and `StreamRaces`; in `OnboardStream` a request is served at once. A CreateNodes call is served
  at once, and writes a host it finds only if the node reports another serial number than the host has, which
  an unreadable one makes possible at any time (`InteractiveOnboard`).
* Inventory lets an Instance be attached to a host until the host is DELETED.
* Deletion converges per reconciliation of the host; one that is acknowledged in spite of an error is repeated
  by the periodic one. A host that is DELETED is gone and takes no further writes of its state.
* ufw, iptables and name resolution are parameters: what protocols, ports and sources mean to them is
  the same for both tools, and whether ufw takes several ports without a protocol is left open.

## Where the code does not do what one might expect

* Losing the acknowledgement of the SUCCESS that hands a workflow to another worker leaves two workers in
  a turn (`LostHandoverBreaksExclusion`, `SafeUnderLossIffSingleOwner`).
* Both container managers return TIMEOUT together with an error
  (tink-worker/cmd/tink-worker/worker/containerd.go:371-372,
  tink-worker/cmd/tink-worker/worker/container_manager.go:121-122), so an on-timeout command never runs
  (`Execute`).
* The comment at onboarding-manager/internal/handlers/southbound/grpcserver/grpc_server.go:473 says that an
  invalid serial number leads to provisioning by UUID; the placeholder is compared like any serial number,
  and CreateNodes stores it in hosts, so it does so only for hosts without a serial number and for the host
  that alone has the placeholder (`PlaceholderSerialAcceptedIff`, `UniqueSurvivesIff`,
  `SecondUnreadableSerialIsShared`). An unreadable serial number also keeps the addresses from being validated
  (`RefusedIff`), and a recorded registration failure blanks them in the host (`FailureIsRecordedIff`).
* A reconciliation or a stream request that read the host before it was deauthorised can issue credentials
  after they were revoked (`PatientDeauthorisingIsSafeIff`), asking for deletion during an invalidation lets a
  new provisioning start before it takes effect (`DeauthorisingIsSafeIff`), and a host reconciliation whose
  snapshot is out of date can leave a DELETED host with an instance or with credentials (`AlwaysSafeIff`).
* Two streams for one host can both get its credentials (`BothGetCredentials`), and a late answer can write an
  ONBOARDED host back to REGISTERED and clear a registration error (`LateIff`).
* Deauthorising overwrites the provisioning status, after which the same instance can be provisioned again
  (`ProvisionedForgottenIff`, `ProvisionedOnceIff`); a lost update of the instance leads to a second workflow
  (`SecondWorkflowIffWriteLost`).
* One action with an unexpected status forgets the timings of every workflow (`OtherDurationsKeptIff`).
* A directory path whose ".." climbs above its root, a failed change of owner, a port list that starts with a
  comma, and a rule with a protocol but neither ports nor source each have a surprising outcome
  (`TargetReadyIff`, `OwnersAreRightIff`, `IptablesIsExactIff`, `CompilersAgreeIff`).
* The second case of tinker-actions/pkg/drive_detection/drive_detection_test.go:24-30 expects USB drives to
  be skipped; the code has no such filter and the model follows the code.

## Model

| member | source | states |
|---|---|---|
| `WorkerProtocol.ActionsStartInOrderByTheirOwner` | tink-worker/cmd/tink-worker/worker/worker.go:327-444 | on every interleaving of polls, turns, lost acknowledgements and crashes of any number of workers, an action starts only on the worker that owns it and only after the SUCCESS of every earlier action has reached the server |
| `WorkerProtocol.OneWorkerAtATime` | tink-worker/cmd/tink-worker/worker/worker.go:347-444 | as long as no acknowledgement of a SUCCESS that hands the workflow over is lost, at most one worker is inside a turn and nothing starts after FAILED or TIMEOUT |
| `WorkerProtocol.StepKeepsInStep` | tink-worker/cmd/tink-worker/worker/worker.go:370-444 | one step keeps every busy worker in step with the action the server points at, the invariant the two results above rest on |
| `WorkerProtocol.StepKeepsStop` | tink-worker/cmd/tink-worker/worker/worker.go:360-364 | once FAILED or TIMEOUT has been stored, no step starts an action |
| `WorkerProtocol.PollBegins` | tink-worker/cmd/tink-worker/worker/worker.go:347-377 | an idle worker that polls begins index 0 at an empty context, i+1 after SUCCESS of i, and i itself at PENDING or RUNNING, exactly if it owns that action, and nothing after FAILED or TIMEOUT or past the end |
| `WorkerProtocol.NextActionCanRun` | tink-worker/cmd/tink-worker/worker/worker.go:370-444 | from every reachable state at rest and not stopped, the owner of the next action can poll, run and complete it |
| `WorkerProtocol.WorkflowCanComplete` | tink-worker/cmd/tink-worker/worker/worker.go:370-444 | so from every such state some run completes the whole workflow |
| `WorkerProtocol.ReportsUntilAcknowledged` | tink-worker/cmd/tink-worker/worker/worker.go:456-467 | a worker whose report is not acknowledged stays at it and can report again, whatever the others do, until it is acknowledged or crashes |
| `WorkerProtocol.LostHandoverBreaksExclusion` | tink-worker/cmd/tink-worker/worker/worker.go:456-467 | wherever two neighbouring actions have different owners, losing that one acknowledgement leads to a reachable state in which the next owner has begun its turn while the sender still reports |
| `WorkerProtocol.SafeUnderLossIffSingleOwner` | tink-worker/cmd/tink-worker/worker/worker.go:456-467 | over all runs with arbitrary losses, exclusion and silence after a failure hold if and only if all actions belong to one worker |
| `WorkerProtocol.ActionsCompleteOnceInOrder` | tink-worker/cmd/tink-worker/worker/worker.go:370-444 | with acknowledged reports, completions reach the server as 0, 1, 2, ... without gap or repetition, whatever the crashes, and the context tells how many there were |
| `WorkerTurn.PullImageWithRetry` | tink-worker/cmd/tink-worker/worker/worker.go:257-284 | succeeds exactly if one of the allowed attempts succeeds, stops at the first that does, and otherwise has used all attempts |
| `WorkerTurn.OutcomeIff` | tink-worker/cmd/tink-worker/worker/worker.go:182-252 | the result of an action is SUCCESS exactly if the image was pulled within the attempts allowed, the container was made and started and its wait succeeded without error, TIMEOUT exactly if the wait said so, and FAILED otherwise |
| `WorkerTurn.Execute` | tink-worker/cmd/tink-worker/worker/worker.go:182-252 | SUCCESS without error exactly if pull, create, start and wait all succeeded; which reaction runs when; with a manager that returns an error together with TIMEOUT no reaction runs for a timeout |
| `WorkerTurn.Server.Report` | tink-worker/cmd/tink-worker/worker/worker.go:456-467 | attempts are repeated until one is acknowledged, each that arrives is applied and logged, and the worker is still at it if none of the attempts given is acknowledged |
| `WorkerTurn.RetriedReportIsRun` | tink-worker/cmd/tink-worker/worker/worker.go:456-467 | a report with any number of lost acknowledgements is a run of the protocol from which it goes on as after the acknowledged attempt alone |
| `WorkerTurn.Server.RunAction` | tink-worker/cmd/tink-worker/worker/worker.go:387-431 | with no acknowledgement lost, one action contributes RUNNING (unless suppressed), its start and its result, and leaves its result as the context |
| `WorkerTurn.ProcessContext` | tink-worker/cmd/tink-worker/worker/worker.go:347-377 | a context runs a turn exactly if it is this worker's, from the action the context determines, and changes nothing otherwise |
| `WorkerTurn.RunTurn` | tink-worker/cmd/tink-worker/worker/worker.go:379-444 | with no acknowledgement lost, the loop terminates and leaves exactly the trace of the turn and the result of its last action |
| `WorkerTurn.TakeAction` | tink-worker/cmd/tink-worker/worker/worker.go:379-443 | one round of the loop: what of the turn is still to come is unchanged, and it goes on with the next action exactly if this one succeeded and that one is this worker's |
| `WorkerTurn.TurnIsBlock` | tink-worker/cmd/tink-worker/worker/worker.go:408-443 | a turn is a contiguous ascending block of own actions, all but the last successful, ending at the first that fails, ends the workflow or precedes a foreign one |
| `WorkerTurn.TurnTrace` | tink-worker/cmd/tink-worker/worker/worker.go:387-431 | the k-th action of the block contributes exactly its own events at its own place, RUNNING being absent from the whole turn if the polled context was RUNNING |
| `WorkerTurn.TurnIsRun` | tink-worker/cmd/tink-worker/worker/worker.go:379-444 | every turn of the loop is an acknowledged run of the protocol with the same log, context and worker states, so the protocol theorems hold of the loop |
| `StatusDetail.PrepareStatusDetails` | onboarding-manager/internal/tinkerbell/status.go:67-104 | shows the first action that has not succeeded, or the last, and nothing if an unnamed action comes no later |
| `StatusDetail.FirstOpen` | onboarding-manager/internal/tinkerbell/status.go:71-87 | the action shown has only succeeded ones before it and has itself not succeeded unless it is the last |
| `StatusDetail.DetailSays` | onboarding-manager/internal/tinkerbell/status.go:35-104 | the text of a workflow that has not succeeded: position counted from 1, number of actions, step name or raw name, and how the action ended with its message; nothing exactly if an unnamed action comes no later |
| `StatusDetail.NothingToShow` | onboarding-manager/internal/tinkerbell/status.go:35-65 | no text for a workflow that has succeeded or has no actions |
| `StatusDetail.ShownIsUnique` | onboarding-manager/internal/tinkerbell/status.go:71-87 | there is only one such action |
| `StatusDetail.ProgressNeverDecreases` | onboarding-manager/internal/tinkerbell/status.go:71-104 | the number shown does not go back while succeeded actions stay succeeded |
| `StatusDetail.RunsKeepStatuses` | onboarding-manager/internal/tinkerbell/status.go:35-65 | on every acknowledged run the actions with status SUCCESS are exactly those before the one the server points at |
| `StatusDetail.ProgressNamesTheCurrentAction` | onboarding-manager/internal/tinkerbell/status.go:35-104 | on the statuses any such run produces, the number shown is that of the action running or next to run, every worker in a turn is on it, and it does not decrease as the run goes on |
| `Inventory.HandleInventoryError` | onboarding-manager/internal/handlers/controller/reconcilers/reconciler.go:52-68 | goes on exactly when there was no error, acknowledges exactly errors that are no gRPC errors, missing or existing resources and missing permissions, retries all others and never fails a request |
| `Inventory.HandleProvisioningError` | onboarding-manager/internal/handlers/controller/reconcilers/reconciler.go:71-91 | goes on exactly when there was no error, fails a request exactly on Aborted, acknowledges exactly errors that are no gRPC errors and retries all others |
| `InstanceReconciler.Reconciler.Reconcile` | onboarding-manager/internal/handlers/controller/reconcilers/instance.go:63-103 | a failed read ends with its directive and no effect; otherwise the guards in their order have exactly the effect of the specification: nothing for other vendors' hosts, for provisioning in ERROR or for settled states; clean-up for a deauthorised host; provisioning otherwise |
| `InstanceReconciler.Reconciler.HandleHostDeauthorized` | onboarding-manager/internal/handlers/controller/reconcilers/instance.go:134-165 | handled exactly for a RUNNING instance of a deauthorised host, with that clean-up as its whole effect |
| `InstanceReconciler.Reconciler.PopulateInstanceIdleStatus` | onboarding-manager/internal/util/util.go:124-131 | all four statuses become Unknown |
| `InstanceReconciler.Reconciler.DeleteWorkflowIfExists` | onboarding-manager/internal/tinkerbell/client.go:189-217 | a missing workflow object counts as deleted |
| `InstanceReconciler.Reconciler.ReconcileInstance` | onboarding-manager/internal/handlers/controller/reconcilers/instance.go:295-357 | per desired state, the effect on the stores and the directive |
| `InstanceReconciler.Reconciler.TryProvisionInstance` | onboarding-manager/internal/handlers/controller/reconcilers/instance.go:465-515 | the copy of the instance is written back on success and on failure alike, before the error is turned into a directive |
| `InstanceReconciler.Reconciler.UpdateHostInstanceStatusAndCurrentState` | onboarding-manager/internal/handlers/controller/reconcilers/instance.go:253-293 | the two statuses of the host are written if they changed, the instance always, and failed writes are swallowed |
| `InstanceReconciler.Reconciler.CheckStatusOrRunProdWorkflow` | onboarding-manager/internal/onboarding/workflow.go:68-110 | creates a workflow only if the lookup found none, otherwise only evaluates the one found |
| `InstanceReconciler.Reconciler.RunProdWorkflow` | onboarding-manager/internal/onboarding/workflow.go:112-164 | credentials first, then the template for the OS type, the inputs and the workflow; an existing workflow is kept |
| `InstanceReconciler.Reconciler.HandleWorkflowStatus` | onboarding-manager/internal/onboarding/workflow.go:297-338 | per workflow state: the instance state, provisioning status with step detail, host status and error |
| `InstanceOutcomes.WorkflowCreatedExactly` | onboarding-manager/internal/onboarding/workflow.go:68-164 | for any snapshot with no workflow in the stores: one is created, empty, with the template for its OS type, exactly for an instance that is to be provisioned with a supported OS if lookup, credentials, inputs and creation succeed |
| `InstanceOutcomes.CredentialsIssuedExactly` | onboarding-manager/internal/onboarding/workflow.go:112-164 | for any snapshot, credentials are issued exactly on the way to that |
| `InstanceOutcomes.WorkflowGoneIff` | onboarding-manager/internal/onboarding/workflow.go:297-338 | for any snapshot, a workflow object disappears exactly if it can be removed and has succeeded, or its OS is not installed from here, or its instance is to be deleted or belongs to a deauthorised host, with the lookup and the metadata in order where they are needed |
| `InstanceOutcomes.ProvisionedWrittenIff` | onboarding-manager/internal/onboarding/workflow.go:306-321 | for any snapshot, RUNNING with provisioning finished is written exactly on a workflow in SUCCESS, if the instance is there and the write succeeds |
| `InstanceOutcomes.EvaluationOutcome` | onboarding-manager/internal/onboarding/workflow.go:297-338 | for any snapshot, per workflow state: the instance state and provisioning status with step detail, the host status, and the directive; PENDING, RUNNING and an empty state keep the object and retry |
| `InstanceOutcomes.WrittenBack` | onboarding-manager/internal/handlers/controller/reconcilers/instance.go:253-293 | of the host its two statuses are written, each if it changed and the write succeeds; of the instance state and provisioning status in any case; nothing else |
| `InstanceOutcomes.NoEvaluationOutcome` | onboarding-manager/internal/onboarding/workflow.go:68-164 | without a workflow to look at, the instance stays as it was read and the directive follows the first call that failed |
| `InstanceOutcomes.UnsupportedOutcome` | onboarding-manager/internal/handlers/controller/reconcilers/instance.go:208-251 | an OS not installed from here ends the request, one of unknown type or unreadable metadata retries it, and nothing is written |
| `InstanceOutcomes.DeauthorisedOutcome` | onboarding-manager/internal/handlers/controller/reconcilers/instance.go:134-165 | the clean-up for a deauthorised host writes Unknown to all four statuses unless all are idle, and nothing if the workflow is found and cannot be removed |
| `InstanceOutcomes.RequestedStateOutcome` | onboarding-manager/internal/handlers/controller/reconcilers/instance.go:295-357 | DELETED and UNTRUSTED are written exactly if the workflow is gone (for DELETED) and the write succeeds, with the directive of the error |
| `InstanceOutcomes.NothingToDo` | onboarding-manager/internal/handlers/controller/reconcilers/instance.go:63-132 | in all other cases nothing changes and the request ends |
| `HostDeletion.HostReconciler.DeleteResource` | onboarding-manager/internal/invclient/invclient.go:671-686 | a missing resource counts as deleted; any other error leaves everything as it was |
| `HostDeletion.HostReconciler.DeleteResources` | onboarding-manager/internal/handlers/controller/reconcilers/host.go:237-264 | deletes in order and stops at the first error |
| `HostDeletion.HostReconciler.DeleteHostNic` | onboarding-manager/internal/handlers/controller/reconcilers/host.go:199-235 | lists the addresses of the NIC, deletes them, then the NIC, and stops at any error of the listing |
| `HostDeletion.HostReconciler.DeleteHostNics` | onboarding-manager/internal/handlers/controller/reconcilers/host.go:199-217 | NIC by NIC, stopping at the first error |
| `HostDeletion.HostReconciler.DeleteHostChildren` | onboarding-manager/internal/handlers/controller/reconcilers/host.go:152-172 | NICs, storage, USB and GPU in this order, as they were read with the host |
| `HostDeletion.HostReconciler.SetDeletingDetail` | onboarding-manager/internal/handlers/controller/reconcilers/host.go:102-143 | a failed write of the deleting status is ignored, and the status names the Instance that is waited for |
| `HostDeletion.HostReconciler.DeleteHostResource` | onboarding-manager/internal/handlers/controller/reconcilers/host.go:123-182 | one deletion attempt on the host as it was read, including the wait for the Instance and the skipped revocation of an UNTRUSTED host |
| `HostDeletion.HostReconciler.Invalidate` | onboarding-manager/internal/handlers/controller/reconcilers/host.go:266-296 | credentials are revoked before the state becomes UNTRUSTED and the registration status unknown |
| `HostDeletion.HostReconciler.Reconcile` | onboarding-manager/internal/handlers/controller/reconcilers/host.go:42-100 | a failed read ends with its directive and no effect; otherwise one reconciliation of the host as it was read, with its directive |
| `HostDeletion.DeleteChildrenProgress` | onboarding-manager/internal/handlers/controller/reconcilers/host.go:152-264 | only removed children disappear; without error every child that was read is gone; with one, a failure has been used up |
| `HostDeletion.AddressesGoBeforeTheirNic` | onboarding-manager/internal/handlers/controller/reconcilers/host.go:199-235 | however far an attempt gets before it fails, every address of a removed NIC was removed before the NIC |
| `HostDeletion.DeleteHostAttempt` | onboarding-manager/internal/handlers/controller/reconcilers/host.go:123-182 | however old what it works on is, an attempt writes DELETED exactly if it reports no error, then with no Instance attached when it was read (full mode), no child of those read and, unless the host was read as UNTRUSTED, no credentials; otherwise the state stays and a failure was used up |
| `HostDeletion.OnlyChildrenGo` | onboarding-manager/internal/handlers/controller/reconcilers/host.go:152-264 | whatever fails, a reconciliation of a host removes nothing but its NICs, their addresses, its storage, USB and GPU devices |
| `HostDeletion.DeletionIsShown` | onboarding-manager/internal/handlers/controller/reconcilers/host.go:102-143 | the status shown while deleting, which names the Instance that is waited for exactly in full mode with one attached; it stays as it was if it cannot be written |
| `HostDeletion.DeletedIff` | onboarding-manager/internal/handlers/controller/reconcilers/host.go:123-264 | DELETED is written exactly if no Instance is waited for and every call of the attempt does what it should: the revocation unless the host was read as UNTRUSTED, per NIC the listing and the deletion of each address and of itself, each device, and the write; deleting what is gone is no failure, listing for it is one |
| `HostDeletion.RevokedIff` | onboarding-manager/internal/handlers/controller/reconcilers/host.go:145-150 | credentials are revoked exactly by an attempt that does not wait, on a host not read as UNTRUSTED, if that call works |
| `HostDeletion.DeletionDirective` | onboarding-manager/internal/handlers/controller/reconcilers/host.go:73-100 | waiting for the Instance is retried; otherwise a failed attempt is retried exactly if the last call it made ended in an error worth it, and no call before that failed other than that of the status or by finding nothing to delete |
| `HostDeletion.InvalidationOutcome` | onboarding-manager/internal/handlers/controller/reconcilers/host.go:266-296 | revocation first; only if it worked are UNTRUSTED and the statuses written; a failure of either is retried exactly if it is worth it |
| `HostDeletion.HostIdle` | onboarding-manager/internal/handlers/controller/reconcilers/host.go:42-100 | everything else ends at once and changes nothing |
| `HostDeletion.DeletedStays` | onboarding-manager/internal/handlers/controller/reconcilers/host.go:65-68 | further reconciliations of a DELETED host change nothing |
| `HostDeletion.DeletionConverges` | onboarding-manager/internal/handlers/controller/reconcilers/host.go:123-264 | with k failing calls to come, k + 1 reconciliations reach DELETED |
| `JointRuns.ReconcileEffects` | onboarding-manager/internal/handlers/controller/reconcilers/instance.go:63-103 | for any snapshot, credentials or a workflow appear only if it leads into provisioning while no workflow exists; an instance becomes DELETED only without a workflow |
| `JointRuns.ReconcileKeeps` | onboarding-manager/internal/handlers/controller/reconcilers/instance.go:253-357 | for any snapshot, no reconciliation of an instance touches host states, children, or what an instance is and should become |
| `JointRuns.WorkflowCreatedIff` | onboarding-manager/internal/handlers/controller/reconcilers/instance.go:208-230 | for any snapshot, a workflow is created exactly if the host has no provider and is not deauthorised, RUNNING is desired, provisioning is not in ERROR, the host is ONBOARDED or the instance is RUNNING with provisioning unfinished, the OS can be provisioned and the calls succeed |
| `JointRuns.ErrorSetIff` | onboarding-manager/internal/onboarding/workflow.go:322-327 | for any snapshot, provisioning becomes ERROR exactly on a FAILED or TIMEOUT workflow whose result could be written to the instance that was read, with the step detail, and the request fails |
| `JointRuns.RebootShownIff` | onboarding-manager/internal/onboarding/workflow.go:306-321 | for any snapshot, the host comes to be shown as rebooting exactly after a successful workflow of a node that is not standalone, if it was not shown so when read and that can be written |
| `JointRuns.SecondWorkflowIffWriteLost` | onboarding-manager/internal/handlers/controller/reconcilers/instance.go:281-292 | for any snapshot with a successful workflow, the next reconciliation starts another one exactly if the workflow object was deleted while the update of the instance was lost or was not for the one in the stores, which still wants provisioning, and the calls on the way succeed |
| `JointRuns.HostReconcileEffects` | onboarding-manager/internal/handlers/controller/reconcilers/host.go:73-100 | however old what it works on is, a host reconciliation never issues credentials and touches neither the instance nor the workflow nor what is desired |
| `JointRuns.HostStateEffects` | onboarding-manager/internal/handlers/controller/reconcilers/host.go:123-182 | it changes the state only to UNTRUSTED, revoked, or to DELETED with every child that was read gone, and to DELETED with credentials only if it took them for revoked |
| `JointRuns.RunsKeepInv` | onboarding-manager/internal/handlers/controller/reconcilers/host.go:42-100 | sound runs keep the invariants that tie what both reconcilers have read, stream requests in flight, workflow, credentials and states together |
| `JointRuns.PromptIsSoundIff` | onboarding-manager/internal/handlers/controller/reconcilers/host.go:42-100 | a host reconciliation that works on what is still current is sound exactly if nothing in flight is about to issue credentials to a host it invalidates, and no stream request to one it deletes |
| `JointRuns.InstanceDeletedAfterItsWorkflow` | onboarding-manager/internal/handlers/controller/reconcilers/instance.go:318-340 | on every joint run, an instance that is DELETED, or gone, has no workflow object |
| `JointRuns.UntrustedAndDeletedAreRevoked` | onboarding-manager/internal/handlers/controller/reconcilers/host.go:145-150 | on every joint run whose host reconciliations are sound when they take effect, UNTRUSTED and DELETED hosts hold no credentials, and DELETED ones have no instance and no workflow |
| `JointRuns.HostDeletedLast` | onboarding-manager/internal/handlers/controller/reconcilers/host.go:123-182 | on such runs the step that makes a host DELETED leaves no instance, no workflow, none of the children that were read and no credentials, although it skips the revocation of hosts read as UNTRUSTED |
| `JointRuns.SoundIff` | onboarding-manager/internal/handlers/controller/reconcilers/host.go:42-182 | at every state with a host reconciliation in flight, its guard holds if and only if, however its calls end, all sound runs after it keep UNTRUSTED and DELETED hosts revoked and DELETED ones empty |
| `JointRuns.AlwaysSafeIff` | onboarding-manager/internal/handlers/controller/reconcilers/host.go:42-182 | everything that can happen from a state is safe in this sense if and only if the host has a provider, or is DELETED, or, in the profile without OS provisioning, no stream request is about to issue credentials, none can start and no deletion in flight takes live credentials for revoked |
| `JointRuns.DeletedWithInstance` | onboarding-manager/internal/handlers/controller/reconcilers/host.go:102-143 | with OS provisioning, from every state with a live host of no provider: an Instance attached after a deletion has read the host is left behind by it |
| `JointRuns.UnsafeIsReachable` | onboarding-manager/internal/handlers/controller/reconcilers/host.go:42-182 | so with OS provisioning an unsafe state is reachable from every start |
| `JointRuns.PatientDeauthorisingIsSafeIff` | onboarding-manager/internal/handlers/controller/reconcilers/host.go:145-150 | deauthorising keeps "UNTRUSTED implies revoked" in all continuations that do not ask for deletion while the host is being invalidated, if and only if neither an instance reconciliation nor a stream request in flight is about to issue credentials |
| `JointRuns.DeauthorisingIsSafeIff` | onboarding-manager/internal/handlers/controller/reconcilers/host.go:266-296 | in all continuations without exception, it does if and only if the host has a provider, or, in the profile without OS provisioning, no stream request is about to issue credentials; with OS provisioning never |
| `JointRuns.DeletionOvertakesInvalidation` | onboarding-manager/internal/handlers/controller/reconcilers/host.go:266-296 | the run behind this, from every host that is to be UNTRUSTED: deletion is asked for while the invalidation is in flight, the host no longer counts as deauthorised, and a new Instance is being provisioned when the invalidation takes effect |
| `JointRuns.ErrorIsAbsorbing` | onboarding-manager/internal/handlers/controller/reconcilers/instance.go:182-196 | along every run without a deletion request, an instance in provisioning ERROR keeps its status and every reconciliation of it changes nothing at all |
| `JointRuns.ProvisionedForgottenIff` | onboarding-manager/internal/handlers/controller/reconcilers/instance.go:134-165 | for any snapshot, a reconciliation loses the mark "RUNNING and provisioned" exactly if the host is deauthorised, some status is not idle, the instance is still there and the clean-up calls succeed |
| `JointRuns.ProvisionedOnceIff` | onboarding-manager/internal/handlers/controller/reconcilers/instance.go:208-230 | once that mark is persisted, no continuation in which RUNNING stays desired creates another workflow if and only if the host has a provider, or its OS cannot be provisioned, or the host is to be deleted and neither is nor will be deauthorised by anything in flight |
| `JointRuns.ProvisionedOnce` | onboarding-manager/internal/handlers/controller/reconcilers/instance.go:208-230 | run by run: as long as no reconciliation loses the mark and RUNNING stays desired, no workflow is created again |
| `JointRuns.ForgottenInstanceIsProvisionedAgain` | onboarding-manager/internal/handlers/controller/reconcilers/instance.go:134-165 | from every state outside those conditions some run, with RUNNING desired all the time, ends with a second workflow |
| `Lifecycle.InstanceIsProvisioned` | onboarding-manager/internal/handlers/controller/reconcilers/instance.go:208-293 | an instance that was ordered is RUNNING and provisioned after its workflow succeeded and is reconciled, with the statuses the node reported |
| `Lifecycle.NodeIsRetired` | onboarding-manager/internal/handlers/controller/reconcilers/host.go:123-264 | a provisioned node that is asked to be deleted, instance first, is gone with its instance, workflow, credentials and children after one reconciliation of each |
| `Lifecycle.NodeLives` | onboarding-manager/internal/handlers/controller/reconcilers/host.go:42-182 | so the joint machine takes every registered node with a supported OS from registration through onboarding and provisioning to removal when nothing fails |
| `NodeRequest.ServedRequest` | onboarding-manager/internal/handlers/southbound/grpcserver/grpc_server.go:470-480 | a request that is served has a well-formed UUID and never goes without a serial number: an unreadable or missing one is the placeholder |
| `NodeRequest.RefusedIff` | onboarding-manager/pkg/api/onboardingmgr/v1/onboarding.pb.validate.go:620-677 | a request is refused exactly for its UUID, or for its addresses if its serial number is readable, because only the first violation is reported |
| `NodeRequest.UuidIsGroups` | onboarding-manager/pkg/api/onboardingmgr/v1/onboarding.pb.validate.go:39-39 | a UUID is five groups of 8, 4, 4, 4 and 12 hexadecimal digits with hyphens between them |
| `NodeRequest.SerialIsWord` | onboarding-manager/api/onboardingmgr/v1/onboarding.proto:40-40 | a readable serial number is five to twenty letters and digits |
| `NodeRequest.MacIsPairs` | onboarding-manager/api/onboardingmgr/v1/onboarding.proto:41-41 | a MAC address is six pairs of hexadecimal digits, each but the last followed by a colon or a hyphen |
| `NodeRequest.IpIsFourOctets` | onboarding-manager/api/onboardingmgr/v1/onboarding.proto:42-42 | an IP address is four octets with dots between them |
| `NodeRequest.OctetIsNumber` | onboarding-manager/api/onboardingmgr/v1/onboarding.proto:42-42 | an octet is one to three digits that make at most 255 |
| `NodeIdentity.HostStore.GetHostResource` | onboarding-manager/internal/invclient/invclient.go:950-977 | exactly one hit is a host, none is NotFound, more than one an error |
| `NodeIdentity.HostStore.FindHost` | onboarding-manager/internal/handlers/southbound/grpcserver/grpc_server.go:304-435 | the branches of the lookup have exactly the specified effect and answer, the error of a failed write passed on |
| `NodeIdentity.IdentifyIsSoundAndComplete` | onboarding-manager/internal/handlers/southbound/grpcserver/grpc_server.go:304-435 | with unique identifiers and working calls, the lookup returns h if and only if h has the UUID and its serial number is empty, not reported or equal, or nobody has the UUID and h has the serial number and no UUID |
| `NodeIdentity.OnlyMissingUuidIsFilled` | onboarding-manager/internal/handlers/southbound/grpcserver/grpc_server.go:355-365 | the only write to the host it returns is a missing UUID |
| `NodeIdentity.FailureIsRecordedIff` | onboarding-manager/internal/handlers/southbound/grpcserver/grpc_server.go:389-418 | otherwise a registration failure is written exactly for the one host that matches by half, blanking its addresses, and nothing else changes |
| `NodeIdentity.IdentifyIsSound` | onboarding-manager/internal/handlers/southbound/grpcserver/grpc_server.go:304-435 | whatever calls fail and whatever serial numbers hosts share, a host is only returned to a node it matches |
| `NodeIdentity.IdentifyKeeps` | onboarding-manager/internal/handlers/southbound/grpcserver/grpc_server.go:304-435 | whatever calls fail, no host is added or removed, no state changes, no UUID is replaced and no registration error is cleared |
| `NodeIdentity.IdentifyWithSharedSerials` | onboarding-manager/internal/handlers/southbound/grpcserver/grpc_server.go:304-435 | with unique UUIDs but serial numbers that hosts may share, exactly which host is returned, and an internal error exactly if the serial number is shared and the host of the UUID, if any, has one |
| `NodeIdentity.WritesWithSharedSerials` | onboarding-manager/internal/handlers/southbound/grpcserver/grpc_server.go:355-418 | under the same conditions, exactly what is written to every host |
| `NodeIdentity.IdentifyWithFailingCalls` | onboarding-manager/internal/handlers/southbound/grpcserver/grpc_server.go:304-435 | for every outcome of the calls, answer and writes of the lookup in terms of the lookup in which none fails: a failed search or a UUID that cannot be written is an internal failure, a mismatch that cannot be recorded passes on how the write failed, and a lookup with a failed call writes nothing |
| `NodeIdentity.IdentifiedIsMatching` | onboarding-manager/internal/handlers/southbound/grpcserver/grpc_server.go:304-435 | with unique identifiers the host returned is the one that matches |
| `NodeIdentity.PlaceholderSerialAcceptedIff` | onboarding-manager/internal/handlers/southbound/grpcserver/grpc_server.go:470-475 | a request with an unreadable serial number is accepted for a host exactly if the host has its UUID and no serial number or, as the only one, the placeholder, or if nobody has its UUID and the only host with the placeholder has no UUID |
| `OnboardStream.Service.HandleRequest` | onboarding-manager/internal/handlers/southbound/grpcserver/grpc_server.go:462-500 | validation, placeholder, lookup and error replies, with the stream kept open exactly after NotFound |
| `OnboardStream.Service.HandleHost` | onboarding-manager/internal/handlers/southbound/grpcserver/grpc_server.go:502-550 | the reply for each desired state of the host found, with what is written |
| `OnboardStream.Service.HandleRegisteredState` | onboarding-manager/internal/handlers/southbound/grpcserver/grpc_server.go:217-241 | the reply is sent before the state and the registration status are written |
| `OnboardStream.Service.HandleOnboardedState` | onboarding-manager/internal/handlers/southbound/grpcserver/grpc_server.go:244-278 | credentials are sent before ONBOARDED is written; success means that both happened |
| `OnboardStream.Service.OnboardNodeStream` | onboarding-manager/internal/handlers/southbound/grpcserver/grpc_server.go:440-552 | a whole session: replies, written states and the host that zero-touch is started for after the stream |
| `OnboardStream.CredentialsIff` | onboarding-manager/internal/handlers/southbound/grpcserver/grpc_server.go:462-551 | with unique UUIDs, credentials for a host are sent exactly to a request that is not refused and is identified as a host that is desired ONBOARDED, not ONBOARDED and without registration error |
| `OnboardStream.HandoutMatches` | onboarding-manager/internal/handlers/southbound/grpcserver/grpc_server.go:482-548 | whatever calls fail and whatever serial numbers hosts share, credentials go to a node the host matches |
| `OnboardStream.ServeCloses` | onboarding-manager/internal/handlers/southbound/grpcserver/grpc_server.go:244-278 | credentials end the stream; ONBOARDED is written only after them, for the same host and exactly if the write succeeds; zero-touch follows exactly a written state |
| `OnboardStream.ServeKeeps` | onboarding-manager/internal/handlers/southbound/grpcserver/grpc_server.go:462-551 | credentials go only to a host that desires ONBOARDED, is not and has no registration error; a request never clears such an error, never changes what is desired, and makes a host ONBOARDED only by a written hand-out |
| `OnboardStream.CredentialHandouts` | onboarding-manager/internal/handlers/southbound/grpcserver/grpc_server.go:440-552 | on all runs of interleaved streams from any hosts, credentials are the last message of their stream, zero-touch directly follows the written state, and ONBOARDED is written at most once for a host, exactly if it became ONBOARDED on the way |
| `OnboardStream.PersistsAddUp` | onboarding-manager/internal/handlers/southbound/grpcserver/grpc_server.go:265-278 | ONBOARDED is written as often as the host became so, not counting hosts that were ONBOARDED before or when added |
| `OnboardStream.HandoutsAreConserved` | onboarding-manager/internal/handlers/southbound/grpcserver/grpc_server.go:244-278 | on any run, the number of hand-outs of a host is one if it became ONBOARDED here, plus the state writes that were lost |
| `OnboardStream.RegistrationErrorIsFinal` | onboarding-manager/internal/handlers/southbound/grpcserver/grpc_server.go:502-511 | on all runs a host with a registration error keeps it and gets no credentials |
| `StreamOutcomes.TurnedAwayIff` | onboarding-manager/internal/handlers/southbound/grpcserver/grpc_server.go:470-511 | for every outcome of the calls, the exact conditions for each error reply and for sending none |
| `StreamOutcomes.AdmittedReplyIff` | onboarding-manager/internal/handlers/southbound/grpcserver/grpc_server.go:513-550 | the reply to a request admitted to a host: REGISTERED with the project, ONBOARDED exactly if a secret could be fetched, and a refusal for other desired states; nobody else gets one of these |
| `StreamOutcomes.StaysOpenIff` | onboarding-manager/internal/handlers/southbound/grpcserver/grpc_server.go:462-551 | the stream stays open exactly after a NotFound that was sent, or after a sent REGISTERED reply whose state could be written |
| `StreamOutcomes.WrittenIff` | onboarding-manager/internal/handlers/southbound/grpcserver/grpc_server.go:217-278 | exactly what a request writes to every host beyond the lookup: the state desired of it, the addresses reported and the status that belongs to it |
| `StreamOutcomes.RegisteredNodeIsServed` | onboarding-manager/internal/handlers/southbound/grpcserver/grpc_server.go:516-548 | a node whose host is to be REGISTERED gets any number of REGISTERED replies on its stream, and its credentials on the same stream once the host is to be ONBOARDED |
| `StreamOutcomes.UnknownNodeWaits` | onboarding-manager/internal/handlers/southbound/grpcserver/grpc_server.go:482-492 | a node nobody knows keeps getting NotFound on the same stream, and nothing else changes |
| `StreamOutcomes.SessionIsRun` | onboarding-manager/internal/handlers/southbound/grpcserver/grpc_server.go:440-552 | a whole session of the service is a run of its requests up to the one that closes the stream, with the same hosts, replies, written states and zero-touch |
| `StreamRaces.PromptFinishIsServing` | onboarding-manager/internal/handlers/southbound/grpcserver/grpc_server.go:462-551 | a lookup that is answered at once is a request that is served at once |
| `StreamRaces.RefusalIsServing` | onboarding-manager/internal/handlers/southbound/grpcserver/grpc_server.go:470-480 | a request with a field that violates its pattern is refused without a lookup, as when it is served at once |
| `StreamRaces.LateIff` | onboarding-manager/internal/handlers/southbound/grpcserver/grpc_server.go:502-548 | an answer to what was read earlier hands out credentials of a host that is ONBOARDED already, writes an ONBOARDED host back to REGISTERED, or clears a registration error, exactly by what was read then |
| `StreamRaces.BalanceIsKept` | onboarding-manager/internal/handlers/southbound/grpcserver/grpc_server.go:440-552 | no move of any race changes the hand-outs of a host that are not accounted for |
| `StreamRaces.HandoutsInRaces` | onboarding-manager/internal/handlers/southbound/grpcserver/grpc_server.go:440-552 | the number of hand-outs of a host in any race of streams is one if it became ONBOARDED, plus the lost state writes, the overlapping answers and the times it was written back |
| `StreamRaces.AtMostOnceIff` | onboarding-manager/internal/handlers/southbound/grpcserver/grpc_server.go:440-552 | with every state write successful and none undone, the credentials of a host are handed out at most once if and only if no answer overlapped |
| `StreamRaces.DecisionsComeTooLate` | onboarding-manager/internal/handlers/southbound/grpcserver/grpc_server.go:482-531 | an answer goes by what was desired when the host was looked up: a user who decides meanwhile changes the host but not the reply |
| `StreamRaces.BothGetCredentials` | onboarding-manager/internal/handlers/southbound/grpcserver/grpc_server.go:482-548 | two streams that look up a host before either is answered both get its credentials, with no call failing |
| `JointLinks.ServedIsJoint` | onboarding-manager/internal/handlers/southbound/grpcserver/grpc_server.go:462-551 | a stream request admitted to a host that is to be REGISTERED or ONBOARDED is one reading step and one answering step of the joint machine: states, credentials and requests in flight come out the same |
| `JointLinks.OthersAreNoStep` | onboarding-manager/internal/handlers/southbound/grpcserver/grpc_server.go:462-551 | every other request leaves the states of the host alone and hands out no credentials for it |
| `JointLinks.CreateIsJoint` | onboarding-manager/internal/handlers/southbound/grpcserver/grpc_server.go:606-689 | a CreateNodes call is the interactive step of the joint machine, which writes the host exactly if the call gives it another serial number |
| `StreamClient.GrpcStreamClient` | hook-os/device_discovery/onboarding-client.go:79-153 | goes round exactly on REGISTERED replies, ends as the first other reply demands, and has slept the closed-form total |
| `StreamClient.DoublingRule` | hook-os/device_discovery/onboarding-client.go:111-118 | the base sleep is always a power of two between 2 and 32 and n rounds add up to 62 * (n div 5) + 2^(n mod 5 + 1) - 2 |
| `StreamClient.LockStep` | hook-os/device_discovery/onboarding-client.go:82-153 | composed with the server over queues, with breaks of the stream and any other activity on the hosts: at most one message is in flight, the client is at most one request ahead, it falls back exactly after NotFound, ends with credentials exactly after an ONBOARDED response with a project that could be saved, and has slept the closed-form total |
| `StreamClient.StepKeepsPaced` | hook-os/device_discovery/onboarding-client.go:82-106 | a client that sends only when ready and then blocks is never more than one message ahead, whatever the server and the connection do |
| `StreamClient.ReceptionIff` | hook-os/device_discovery/onboarding-client.go:97-153 | a REGISTERED reply, and nothing else, makes the client sleep and send again; NotFound makes it fall back; an ONBOARDED reply ends it with credentials exactly if there is a project, it can be saved and they are not empty |
| `StreamClient.WaitingClientIsServed` | hook-os/device_discovery/onboarding-client.go:79-153 | a client whose host is to be REGISTERED goes round any number of times and, with the first answer after the host is to be ONBOARDED, ends with its credentials on the same connection |
| `StreamClient.BrokenStreamEndsIt` | hook-os/device_discovery/onboarding-client.go:82-106 | a broken stream ends the client without credentials, whether it is about to send or waits for an answer |
| `StreamClient.CredentialsAreForTheMatchingHost` | hook-os/device_discovery/onboarding-client.go:120-139 | a client that ends with credentials was served for a host that matched it, was desired ONBOARDED and was not ONBOARDED yet |
| `CreateNodes.Service.StartZeroTouch` | onboarding-manager/internal/handlers/southbound/grpcserver/grpc_server.go:691-793 | an Instance is added exactly if none exists, auto-provisioning is on and the calls succeed; for an existing one that is not RUNNING an event is sent, and dropped without a listener |
| `CreateNodes.Service.Create` | onboarding-manager/internal/handlers/southbound/grpcserver/grpc_server.go:578-689 | one call: refusal, placeholder serial number, the host created or updated with all its fields, and the empty project id for a host that was just created |
| `CreateNodes.Service.Onboard` | hook-os/device_discovery/device-discovery.go:253-271 | the loop of at most three attempts of the node |
| `CreateNodes.InstanceAddedIff` | onboarding-manager/internal/handlers/southbound/grpcserver/grpc_server.go:691-793 | whatever fails, an Instance is added for a host exactly if it had none, the call comes to zero-touch for it, OS provisioning is not skipped, the host and the provider configuration can be read, auto-provisioning is on, and both calls to make it succeed |
| `CreateNodes.EventSentIff` | onboarding-manager/internal/handlers/southbound/grpcserver/grpc_server.go:711-727 | an event is sent for a host exactly if its Instance is not RUNNING, the call comes to zero-touch for it, OS provisioning is not skipped, the host can be read and somebody listens |
| `CreateNodes.AnsweredIff` | onboarding-manager/internal/handlers/southbound/grpcserver/grpc_server.go:620-689 | a call is answered exactly if zero-touch is reached and ends without an error, with the project of the tenant, or an empty one for a new host |
| `CreateNodes.HostWrittenIff` | onboarding-manager/internal/handlers/southbound/grpcserver/grpc_server.go:606-689 | the host written by a call with all its fields: a new one exactly if nobody has tenant and UUID, the known one exactly if its serial number differs |
| `CreateNodes.ThreeAttempts` | hook-os/device_discovery/device-discovery.go:253-271 | a node gives up only after its third attempt, and never makes another |
| `CreateNodes.CreateNodesIsIdempotent` | onboarding-manager/internal/handlers/southbound/grpcserver/grpc_server.go:578-793 | after any number of calls for one tenant and UUID, whatever fails in them, there is at most one host with at most one Instance, exactly one host once a call was answered, events were sent for it only, and nothing else changed |
| `CreateNodes.UniqueSurvivesIff` | onboarding-manager/internal/handlers/southbound/grpcserver/grpc_server.go:583-689 | identifiers stay unique across a call exactly if it writes none, or no other host has the UUID or the serial number it stores, the placeholder included |
| `CreateNodes.SecondUnreadableSerialIsShared` | onboarding-manager/internal/handlers/southbound/grpcserver/grpc_server.go:586-597 | a second node with an unreadable serial number makes the placeholder shared, after which the stream fails for every such node except where the host of its UUID has no serial number |
| `CreateNodes.NewHostTakesTwoAttempts` | hook-os/device_discovery/device-discovery.go:184-201 | when nothing fails, a known host gets its project on the first attempt and a new one on the second |
| `CreateNodes.OnboardedNodeHasOneHost` | hook-os/device_discovery/device-discovery.go:253-271 | whatever fails, a node that ends with a project has the project of its tenant and exactly one host, and a new host never gets it on the first attempt |
| `ActionTimings.Instrumentation.Forget` | onboarding-manager/internal/onboarding/workflow.go:205-212 | an unexpected action status forgets what has been recorded for every workflow |
| `ActionTimings.Instrumentation.RecordAction` | onboarding-manager/internal/onboarding/workflow.go:189-213 | what one polled action adds to the maps |
| `ActionTimings.Instrumentation.SumUp` | onboarding-manager/internal/onboarding/workflow.go:222-249 | whatever the iteration order, the total is the sum over the keys that contain the workflow's name, which are removed, and nothing else but the boot measurement is |
| `ActionTimings.Instrumentation.Summarise` | onboarding-manager/internal/onboarding/workflow.go:219-258 | a total is logged exactly if the reboot action has succeeded |
| `ActionTimings.Instrumentation.Poll` | onboarding-manager/internal/onboarding/workflow.go:184-258 | one poll: all actions recorded in order, then summed up |
| `ActionTimings.SumRemove` | onboarding-manager/internal/onboarding/workflow.go:222-249 | the sum does not depend on which key is taken first |
| `ActionTimings.TotalsAreConserved` | onboarding-manager/internal/onboarding/workflow.go:184-259 | for distinctly named, all successful actions including reboot and no stale keys, the total is the sum of their seconds, none of the workflow's durations stays, and other workflows' entries are unchanged |
| `ActionTimings.WaitingRecorded` | onboarding-manager/internal/onboarding/workflow.go:189-200 | one poll: the waiting action is recorded when it is first seen PENDING, and how long it waited when it is first seen RUNNING |
| `ActionTimings.StatusRecorded` | onboarding-manager/internal/onboarding/workflow.go:186-213 | every action polled leaves its status, and its seconds exactly if it has succeeded |
| `ActionTimings.FinishedIff` | onboarding-manager/internal/onboarding/workflow.go:219-222 | a poll ends a workflow exactly if it shows the reboot as succeeded, or does not show it and an earlier one did |
| `ActionTimings.EmptiedExactly` | onboarding-manager/internal/onboarding/workflow.go:222-249 | per key, what summing up removes from each map and what it keeps |
| `ActionTimings.WaitingIsMeasured` | onboarding-manager/internal/onboarding/workflow.go:184-213 | over any number of polls of a workflow that has not ended, the waiting time is the time from the first poll that shows the action PENDING to the first that shows it RUNNING |
| `ActionTimings.OtherDurationsKeptIff` | onboarding-manager/internal/onboarding/workflow.go:184-259 | another workflow's duration survives a whole poll, summed up or not, exactly if no polled action has an unexpected status |
| `FlattenStruct.Flattener.FlattenStruct` | onboarding-manager/internal/tinkerbell/template_data.go:173-206 | the shared map receives the visited leaves in order, starting from what it held |
| `FlattenStruct.StructToMapStringString` | onboarding-manager/internal/tinkerbell/template_data.go:166-170 | the same from an empty map |
| `FlattenStruct.LeavesAreSound` | onboarding-manager/internal/tinkerbell/template_data.go:184-205 | every visited leaf is what its chain of field numbers leads to, and leaves are visited in lexicographic order of those chains |
| `FlattenStruct.LeavesAreComplete` | onboarding-manager/internal/tinkerbell/template_data.go:184-205 | every exported leaf is visited |
| `FlattenStruct.FlattenedLookup` | onboarding-manager/internal/tinkerbell/template_data.go:173-206 | a key of the result holds the text of the last leaf of that concatenated name, or, if no leaf has it, what was there before |
| `FlattenStruct.SizeIsNumberOfLeavesIff` | onboarding-manager/internal/tinkerbell/template_data.go:166-206 | the map has as many entries as there are leaves if and only if no two leaves have the same concatenated name |
| `EnsureDir.Disk.DirExistsAt` | tinker-actions/src/writefile/main.go:132-149 | missing, directory, file in the way and failing call are told apart |
| `EnsureDir.Disk.EnsureDirAt` | tinker-actions/src/writefile/main.go:177-203 | an existing directory is left alone; a missing one is made and then handed to its owner |
| `EnsureDir.Disk.RecursiveEnsureDir` | tinker-actions/src/writefile/main.go:150-175 | the early return, the bad path and the loop over the chain |
| `EnsureDir.Disk.EnsureParts` | tinker-actions/src/writefile/main.go:166-172 | part by part, stopping at the first error |
| `EnsureCalls.CallsOfSuccess` | tinker-actions/src/writefile/main.go:132-203 | a run that succeeds made one call for its target and, unless that was there, one per directory of the chain and two more per directory added, none of which failed |
| `EnsureCalls.ErrorsAreExplained` | tinker-actions/src/writefile/main.go:132-203 | a run that fails ended at its first failing call, or at what its error says: a file at or above the path, no directory to make it in, or a missing target and no separator |
| `EnsureCalls.JoinRules` | tinker-actions/src/writefile/main.go:167-169 | a name goes down, ".." takes it back and stops at the root, empty and "." components do nothing |
| `EnsureDir.OutcomeOfEnsure` | tinker-actions/src/writefile/main.go:150-175 | no existing entry ever changes; success found the target or made exactly the missing directories of the chain with the wanted owner; an error has made an initial part of them, all with the wanted owner unless a change of owner is what failed, and then all but the last |
| `EnsureDir.EnsuredKeepsTree` | tinker-actions/src/writefile/main.go:150-203 | what exists still lies in directories afterwards |
| `EnsureDir.SucceedsIff` | tinker-actions/src/writefile/main.go:132-203 | unless a system call fails, it succeeds exactly if the target is a directory, or is missing and the path has a separator and no file lies on the chain |
| `EnsureDir.EnsureIsIdempotent` | tinker-actions/src/writefile/main.go:150-203 | a second run succeeds and changes nothing |
| `EnsureDir.TargetEndsTheChainIff` | tinker-actions/src/writefile/main.go:150-172 | the directory looked for first is the one the chain ends at if and only if no ".." climbs above the root of the path |
| `EnsureDir.TargetReadyIff` | tinker-actions/src/writefile/main.go:150-175 | after success the target and all its parents are directories if and only if the target was one before or lies on the chain, and so always if no ".." climbs too high |
| `EnsureDir.RisingPathMissesItsTarget` | tinker-actions/src/writefile/main.go:150-175 | for "/../a" it reports success without the target |
| `EnsureDir.FailedChownIsForgotten` | tinker-actions/src/writefile/main.go:191-199 | a directory whose change of owner failed keeps the wrong owner through a later run that reports success |
| `EnsureDir.OwnersAreRightIff` | tinker-actions/src/writefile/main.go:150-203 | after any first run and a successful second one, everything the two added belongs to the right owner if and only if the first did not fail in a change of owner |
| `DriveDetection.FilterDrives` | tinker-actions/pkg/drive_detection/drive_detection.go:108-119 | keeps exactly the eligible drives |
| `DriveDetection.Filtered` | tinker-actions/pkg/drive_detection/drive_detection.go:108-119 | a drive is kept exactly if it is a non-empty, non-removable disk |
| `DriveDetection.Swap` | tinker-actions/pkg/drive_detection/drive_detection.go:130-130 | exchanges two drives in place |
| `DriveDetection.SiftDown` | tinker-actions/pkg/drive_detection/drive_detection.go:130-147 | moves one drive to its place, in place |
| `DriveDetection.Sort` | tinker-actions/pkg/drive_detection/drive_detection.go:57-57 | leaves an ordered permutation in the same array |
| `DriveDetection.DetectDrive` | tinker-actions/pkg/drive_detection/drive_detection.go:47-72 | an error exactly if no drive is eligible; otherwise an eligible drive that no eligible drive precedes |
| `DriveDetection.LessIsStrictTotal` | tinker-actions/pkg/drive_detection/drive_detection.go:131-147 | the comparison is a strict order, total on distinctly named drives |
| `DriveDetection.NameLessIff` | tinker-actions/pkg/drive_detection/drive_detection.go:137-147 | names are compared as Go compares strings: a proper prefix comes first, else the first character that differs decides |
| `DriveDetection.FoundIff` | tinker-actions/pkg/drive_detection/drive_detection.go:47-72 | there is a drive to choose exactly if some disk of non-zero size is not removable |
| `DriveDetection.BestIffForemost` | tinker-actions/pkg/drive_detection/drive_detection.go:123-147 | a drive is chosen if and only if it is a non-empty, non-removable disk, named sd* if there is such a one, else nvme* if there is such a one, the smallest of its type, and of these the first by name |
| `DriveDetection.ChoiceIgnoresOrder` | tinker-actions/pkg/drive_detection/drive_detection.go:47-72 | the drive chosen does not depend on the order or repetition of the input |
| `DriveDetection.OrderedIsUnique` | tinker-actions/pkg/drive_detection/drive_detection.go:57-57 | distinctly named drives have only one ordered permutation, so the sorting algorithm does not matter |
| `Firewall.GenerateIptablesCommands` | dkam/pkg/curation/curation.go:320-354 | the commands for each combination of protocol, ports and source |
| `Firewall.GenerateIptablesWithProtocol` | dkam/pkg/curation/curation.go:329-334 | one command per port, blanks trimmed |
| `Firewall.GenerateIptablesForPorts` | dkam/pkg/curation/curation.go:371-386 | one tcp and one udp command per port, blanks trimmed |
| `Firewall.GetCustomFirewallRules` | dkam/pkg/curation/curation.go:101-122 | required rules before configured ones, or the first parse error |
| `Firewall.IptablesAcceptsItsRule` | dkam/pkg/curation/curation.go:320-386 | for every rule the iptables commands accept exactly what the rule means, taken without its ports if the first part of their list is empty |
| `Firewall.IptablesIsExactIff` | dkam/pkg/curation/curation.go:320-386 | iptables accepts what the rule means if and only if the port list is empty or its first part is not, apart from a rule that accepts nothing either way |
| `Firewall.UfwAcceptsItsRuleIfKept` | dkam/pkg/curation/curation.go:281-317 | for every rule the ufw commands accept exactly what the rule means if ufw keeps the rule, and nothing otherwise |
| `Firewall.CompilersAgreeIff` | dkam/pkg/curation/curation.go:281-386 | the two compilers agree on a rule if and only if ufw keeps it or none of its ports is readable; or, for a list starting with a comma, if the rule restricts nothing else |
| `Firewall.ListsAcceptTheirRules` | dkam/pkg/curation/curation.go:101-122 | whole rule lists: ufw accepts what some kept rule means, iptables what some rule means, taken without its ports if the first part of their list is empty |
| `Firewall.EmptyFirstPortIsNoPort` | dkam/pkg/curation/curation.go:325-353 | a port list that starts with a comma is compiled to iptables as if there were no ports, and to ufw as a command that accepts nothing |
| `Strings.SplitJoins` | dkam/pkg/curation/curation.go:325-325 | Split cuts at every separator and loses nothing |
| `Strings.SplitOfJoined` | dkam/pkg/curation/curation.go:325-325 | splitting what was joined gives the parts back if none has the separator in it |
| `Strings.SpacesAre` | dkam/pkg/curation/curation.go:331-331 | what trimming removes: space, tab, line feed, vertical tab, form feed and carriage return |
| `Strings.SplitOfTrimmed` | dkam/pkg/curation/curation.go:331-331 | for a list without inner blanks, trimming the parts and splitting the trimmed list give the same |
| `ReconcilerId.PairComesBackIff` | onboarding-manager/internal/handlers/controller/reconcilers/reconciler.go:29-49 | tenant and resource id come back from the identifier if and only if neither has an underscore |
| `ReconcilerId.IdentifiersAreDistinct` | onboarding-manager/internal/handlers/controller/reconcilers/reconciler.go:29-49 | pairs without underscores have distinct identifiers |

## Left out

- WorkerTurn.RunTurn: the trace of a whole turn is stated for reports none of which loses an acknowledgement; a single report with losses is RetriedReportIsRun, and what losses do to runs is in WorkerProtocol.
- NodeRequest.RefusedIff: patterns are matched as the API declares them; requests are strings of characters, not of encoded bytes.
- WorkerTurn.PullImageWithRetry: when the back-off library gives up early, because time or the context ran out, shows only as a smaller number of allowed attempts.
- WorkerTurn.Execute: containers are removed and logs captured without effect on the result; what a reaction's own container returns is not used by the code and not modelled.
- StatusDetail.PrepareStatusDetails: numbers are not rendered to text, and the table of step names is a parameter.
- InstanceReconciler.Reconciler.RunProdWorkflow: what the inputs of the workflow contain is not modelled, only whether they could be made.
- HostDeletion.DeletionConverges: listing the addresses of a NIC counts as a call that may fail like any other; an attempt interrupted by a restart is an attempt whose next call fails.
- JointRuns.DeauthorisingIsSafeIff: the interactive path finds and updates a host in one step, and a reconciliation in flight is not interrupted between its writes.
- OnboardStream.Service.OnboardNodeStream: the text of error replies, and the two fields of the credentials, are not modelled.
- StreamClient.GrpcStreamClient: the random part of every sleep is left out.
- CreateNodes.Service.Create: tenant and permissions are settled before the call; of a request with several nodes only the first matters, as in the code; the desired state of a new host is unspecified.
- ActionTimings.Instrumentation.Poll: log lines other than the total, and integer overflow of the total, are left out.
- FlattenStruct.Flattener.FlattenStruct: values are trees, so cyclic pointers, on which the code does not end, do not occur; the printed form of scalars and pointers is part of the value.
- EnsureDir.Disk.RecursiveEnsureDir: symbolic links and permission bits are left out; other processes do not change the tree meanwhile.
- DriveDetection.Sort: the library's sort is the insertion sort it uses for up to twelve elements; OrderedIsUnique covers the other algorithms.
- Strings.TrimSpace: only ASCII blanks are trimmed.
- Firewall.GetCustomFirewallRules: commands are kept as their arguments instead of as text; reading rules from JSON is a result that may be an error; the limit of some tools on ports per command and IP versions are left out.
- Keycloak, Kubernetes, gRPC and container calls are answers that a parameter supplies.
- Signing and downloading in dkam, image streaming and decompression, cloud-init templates, environment look-ups, tracing and metrics are not modelled.
- The rules Inventory itself enforces and the inside of the Tinkerbell server are not part of this model.
