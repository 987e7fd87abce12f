/**
 Joint runs of the Host and the Instance reconciler with their environment: users, Host Resource
 Manager, the onboarding streams, the node itself and the workflow engine. Each reconciler handles one
 resource at a time (parallelism 1), but the two and the streams run concurrently: each works from what it
 read earlier, and anything may happen between its reads and its writes.
 */
module JointRuns {
  import opened Wrappers
  import opened StatusDetail
  import opened Inventory
  import opened InstanceReconciler
  import opened HostDeletion

  datatype Snapshot = Snapshot(host: Host, inst: Instance)

  /** The stores; what the two reconcilers have read, if they are at work; how many stream requests have found
      the host and are about to write REGISTERED or to issue credentials; and the next free resource id. */
  datatype Joint = Joint(
    w: World, snap: Option<Snapshot>, hsnap: Option<HostSnapshot>,
    registering: nat, onboarding: nat, nextId: ResourceId)

  /** `full` is the profile with OS provisioning; without it there are no instances. */
  datatype Setup = Setup(full: bool, texts: Texts)

  datatype Step =
    // users
    | SetHostDesired(hostState: HostState)
    | SetInstanceDesired(instState: InstanceState)
    | CreateInstance(wanted: InstanceState, os: Os)
    // Inventory removes an instance that is DELETED
    | Purge
    // Host Resource Manager
    | HrmRunning
    | HrmStatuses(running: Status, update: Status, attestation: Status)
    | Discover(parts: Parts, live: set<ResourceId>)
    // the workflow engine and the node
    | WorkflowMoves(wf: Workflow)
    | InteractiveOnboard(otherSerial: bool)
    // the onboarding streams
    | StreamFetch
    | StreamRegister(written: bool)
    | StreamOnboard(issued: bool, written: bool)
    // the reconcilers
    | Fetch
    | Act(c: Calls)
    | FetchHost
    | ActHost(o: Oracle)

  /** What the environment may do: a desired state leaves UNTRUSTED only for DELETED and never leaves
      DELETED, HRM does not revive a DELETED instance, and a DELETED host takes part in nothing. */
  predicate Possible(s: Setup, j: Joint, step: Step) {
    var h := j.w.host;
    var i := j.w.instance;
    match step
    case SetHostDesired(d) =>
      (h.desired.HostUntrusted? ==> d.HostUntrusted? || d.HostDeleted?) && (h.desired.HostDeleted? ==> d.HostDeleted?)
    case SetInstanceDesired(d) => i.Some? && (i.value.desired.InstDeleted? ==> d.InstDeleted?)
    case CreateInstance(_, _) => s.full && i.None? && !h.current.HostDeleted?
    case Purge => i.Some? && i.value.desired.InstDeleted? && i.value.current.InstDeleted?
    case HrmRunning => i.Some? && i.value.desired.InstRunning? && !i.value.current.InstDeleted?
    case HrmStatuses(_, _, _) => i.Some?
    case Discover(_, _) => !h.current.HostDeleted?
    case WorkflowMoves(_) => j.w.workflow.Some?
    case InteractiveOnboard(_) => !h.current.HostDeleted?
    case StreamFetch => (h.desired.HostRegistered? || h.desired.HostOnboarded?) && !h.current.HostOnboarded?
    case StreamRegister(_) => j.registering > 0
    case StreamOnboard(_, _) => j.onboarding > 0
    case Fetch => s.full && i.Some? && j.snap.None?
    case Act(_) => j.snap.Some?
    case FetchHost => j.hsnap.None?
    case ActHost(_) => j.hsnap.Some?
  }

  function WithInstance(j: Joint, i: Option<Instance>): Joint {
    j.(w := j.w.(instance := i))
  }

  /** A stream's write of the host state; the record of a DELETED host takes none. */
  function WithCurrent(w: World, current: HostState): World {
    if w.host.current.HostDeleted? then w else w.(host := w.host.(current := current))
  }

  function Apply(s: Setup, j: Joint, step: Step): Joint
    requires Possible(s, j, step)
  {
    var w := j.w;
    match step
    case SetHostDesired(d) => j.(w := w.(host := w.host.(desired := d)))
    case SetInstanceDesired(d) => WithInstance(j, Some(w.instance.value.(desired := d)))
    case CreateInstance(d, os) =>
      WithInstance(j, Some(Instance(j.nextId, d, InstUnspecified, os, NOT_SET, NOT_SET, NOT_SET, NOT_SET)))
        .(nextId := j.nextId + 1)
    case Purge => WithInstance(j, None)
    case HrmRunning => WithInstance(j, Some(w.instance.value.(current := InstRunning)))
    case HrmStatuses(r, u, a) => WithInstance(j, Some(w.instance.value.(running := r, update := u, attestation := a)))
    case Discover(p, l) => j.(w := w.(host := w.host.(parts := p), live := l))
    case WorkflowMoves(wf) => j.(w := w.(workflow := Some(wf)))
    case InteractiveOnboard(otherSerial) =>
      // a known host is only written when the node reports another serial number than it has
      if otherSerial then j.(w := w.(host := w.host.(current := HostOnboarded, onboarding := ONBOARDED))) else j
    case StreamFetch =>
      if w.host.desired.HostRegistered?
      then j.(registering := j.registering + 1)
      else j.(onboarding := j.onboarding + 1)
    case StreamRegister(written) =>
      j.(registering := j.registering - 1, w := if written then WithCurrent(w, HostRegistered) else w)
    case StreamOnboard(issued, written) =>
      var w1 := if issued then w.(credentials := true) else w;
      j.(onboarding := j.onboarding - 1, w := if issued && written then WithCurrent(w1, HostOnboarded) else w1)
    case Fetch => j.(snap := Some(Snapshot(w.host, w.instance.value)))
    case Act(c) => j.(w := Reconciled(s.texts, j.snap.value.host, j.snap.value.inst, w, c).0, snap := None)
    case FetchHost => j.(hsnap := Some(Snap(w)))
    case ActHost(o) => j.(w := ReconciledHost(s.full, j.hsnap.value, w, o).0, hsnap := None)
  }

  /** The state after a sequence of steps, or None when one of them is not possible. */
  function Run(s: Setup, j: Joint, steps: seq<Step>): Option<Joint>
    decreases |steps|
  {
    if steps == [] then Some(j)
    else if Possible(s, j, steps[0]) then Run(s, Apply(s, j, steps[0]), steps[1..])
    else None
  }

  predicate Start(j: Joint) {
    && !j.w.host.current.HostUntrusted? && !j.w.host.current.HostDeleted?
    && j.w.instance.None? && j.w.workflow.None? && j.snap.None? && j.hsnap.None?
  }

  // ---------------------------------------------------------------------------------------------
  // What one reconciliation of an instance can do.
  // ---------------------------------------------------------------------------------------------

  /** The host's states, the children, and what an instance is and should become are the same. */
  predicate SameTargets(w: World, r: World) {
    && r.host == w.host.(status := r.host.status, onboarding := r.host.onboarding)
    && r.live == w.live
    && (r.instance.Some? <==> w.instance.Some?)
    && (r.instance.Some? ==>
          var (i, k) := (w.instance.value, r.instance.value); k.id == i.id && k.desired == i.desired && k.os == i.os)
  }

  lemma ProvisionKeeps(t: Texts, h: Host, i: Instance, w: World, c: Calls)
    ensures SameTargets(w, Provision(t, h, i, w, c).0)
  {
    WriteBackKeeps(w, h, h, i, c);
    WriteBackKeeps(StartWorkflow(w, i.os, c), h, h, i, c);
    if w.workflow.Some? {
      var (i1, hostStatus, _) := AfterWorkflow(t, i, h.status, w.workflow.value);
      WriteBackKeeps(w, h, h.(status := hostStatus), i1, c);
    }
  }

  lemma WriteBackKeeps(w: World, h: Host, n: Host, i: Instance, c: Calls)
    ensures SameTargets(w, WriteBack(w, h, n, i, c))
  {
  }

  lemma ReconcileKeeps(t: Texts, h: Host, i: Instance, w: World, c: Calls)
    ensures SameTargets(w, Reconciled(t, h, i, w, c).0)
  {
    ProvisionKeeps(t, h, i, w, c);
  }

  /** It creates credentials or a workflow only for a snapshot that leads into provisioning while no
      workflow exists, and makes an instance DELETED only once it has no workflow. */
  lemma ReconcileEffects(t: Texts, h: Host, i: Instance, w: World, c: Calls)
    ensures var r := Reconciled(t, h, i, w, c).0;
      && (r.credentials != w.credentials || (r.workflow.Some? && w.workflow.None?) ==>
            WantsProvisioning(h, i) && Provisionable(i.os) && w.workflow.None?)
      && (r.instance.Some? && w.instance.Some? && r.instance.value.current.InstDeleted? ==>
            || w.instance.value.current.InstDeleted? || i.current.InstDeleted?
            || (i.desired.InstDeleted? && r.workflow.None?))
  {
  }

  /** A workflow comes into being exactly when the instance wants provisioning, its OS can be provisioned
      and the calls on the way succeed. */
  lemma WorkflowCreatedIff(t: Texts, h: Host, i: Instance, w: World, c: Calls)
    requires w.workflow.None?
    ensures Reconciled(t, h, i, w, c).0.workflow.Some? <==> WantsProvisioning(h, i) && Provisionable(i.os) && Starts(c)
  {
  }

  /** The calls that creating a workflow takes succeed. */
  predicate Starts(c: Calls) {
    && c.k8sClient == NoErr && c.getWorkflow == NoErr && c.credentials == NoErr && c.inputs == NoErr
    && (c.createWorkflow == NoErr || c.createWorkflow == AlreadyExists)
  }

  /** The instance as it was read leads to looking at its workflow, and a workflow is found. */
  predicate Evaluates(h: Host, i: Instance, w: World, c: Calls) {
    && WantsProvisioning(h, i) && Provisionable(i.os)
    && c.k8sClient == NoErr && c.getWorkflow == NoErr && w.workflow.Some?
  }

  /** Whatever the snapshot, provisioning turns into ERROR exactly on a FAILED or TIMEOUT workflow (if the
      write succeeds and the instance is still there), and the step detail is persisted with it. */
  lemma ErrorSetIff(t: Texts, h: Host, i: Instance, w: World, c: Calls)
    requires w.instance.Some? && !w.instance.value.provisioning.indicator.Error?
    ensures var r := Reconciled(t, h, i, w, c);
      && (r.0.instance.value.provisioning.indicator.Error? <==>
            && Evaluates(h, i, w, c) && c.writeInstance == NoErr && Present(w, i.id)
            && (w.workflow.value.state.Failed? || w.workflow.value.state.Timeout?))
      && (r.0.instance.value.provisioning.indicator.Error? ==>
            && r.0.instance.value.provisioning
               == WithDetail(PROVISIONING_FAILED, GenerateStatusDetail(t, w.workflow.value))
            && r.1 == Fail)
  {
  }

  /** Whatever the snapshot, the host comes to be shown as rebooting exactly after a successful workflow of a
      node that is not standalone, for only such a node has agents that report it RUNNING later; and only if
      it was not shown so when it was read. */
  lemma RebootShownIff(t: Texts, h: Host, i: Instance, w: World, c: Calls)
    requires w.host.status != REBOOTING
    ensures Reconciled(t, h, i, w, c).0.host.status == REBOOTING <==>
      && Evaluates(h, i, w, c) && w.workflow.value.state.Success? && IsStandalone(i.os) == Some(false)
      && h.status != REBOOTING && c.writeHost == NoErr
  {
  }

  /** After a successful workflow, the next reconciliation starts another one exactly if the workflow object
      was deleted, the instance in the stores still wants provisioning, and that is because its update was
      lost or was not for it; and if that reconciliation's own calls succeed. */
  lemma SecondWorkflowIffWriteLost(t: Texts, h: Host, i: Instance, w: World, c: Calls, c2: Calls)
    requires w.instance.Some? && Evaluates(h, i, w, c) && w.workflow.value.state.Success?
    ensures var w1 := Reconciled(t, h, i, w, c).0; var k := w.instance.value;
      w1.workflow.None? && Reconciled(t, w1.host, w1.instance.value, w1, c2).0.workflow.Some? <==>
        && (c.deleteWorkflow == NoErr || c.deleteWorkflow == NotFound)
        && (c.writeInstance != NoErr || !Present(w, i.id))
        && WantsProvisioning(w.host, k) && Provisionable(k.os) && Starts(c2)
  {
    var w1 := Reconciled(t, h, i, w, c).0;
    assert Deauthorised(w1.host) == Deauthorised(w.host) && w1.host.current == w.host.current;
    if c.writeInstance == NoErr && Present(w, i.id) {
      assert w1.instance.value.current == InstRunning && w1.instance.value.provisioning == PROVISIONED;
    } else {
      assert w1.instance == w.instance;
      assert WantsProvisioning(w1.host, w.instance.value) == WantsProvisioning(w.host, w.instance.value);
    }
    if w1.workflow.None? {
      WorkflowCreatedIff(t, w1.host, w1.instance.value, w1, c2);
    }
  }

  // ---------------------------------------------------------------------------------------------
  // Deletion order and revocation.
  // ---------------------------------------------------------------------------------------------

  predicate Finished(i: Instance) {
    i.desired.InstDeleted? && i.current.InstDeleted?
  }

  /** An instance reconciliation in flight that will issue credentials whatever happened to the host since. */
  predicate Danger(j: Joint) {
    j.snap.Some? && j.w.workflow.None? &&
    WantsProvisioning(j.snap.value.host, j.snap.value.inst) && Provisionable(j.snap.value.inst.os)
  }

  /** Nothing in flight, neither a reconciliation nor a stream request, is about to issue credentials. */
  predicate Quiet(j: Joint) {
    !Danger(j) && j.onboarding == 0
  }

  predicate WillInvalidate(h: HostSnapshot) {
    !h.host.hasProvider && h.host.desired.HostUntrusted? && !h.host.current.HostUntrusted?
  }

  predicate WillDelete(s: Setup, h: HostSnapshot) {
    && !h.host.hasProvider && h.host.desired.HostDeleted? && !h.host.current.HostDeleted?
    && !(s.full && h.attached.Some?)
  }

  /** Instances, their snapshots and their workflow object. */
  predicate InstanceInv(s: Setup, j: Joint) {
    var i := j.w.instance;
    && (!s.full ==> i.None? && j.snap.None?)
    && (i.None? ==> j.w.workflow.None?)
    && (i.Some? ==> i.value.id < j.nextId)
    && (i.Some? && i.value.current.InstDeleted? ==> j.w.workflow.None? && i.value.desired.InstDeleted?)
    && (j.snap.Some? ==> var k := j.snap.value.inst;
          && k.id < j.nextId
          && (k.current.InstDeleted? ==> Finished(k))
          && (!Finished(k) ==> i.Some? && i.value.id == k.id && !i.value.current.InstDeleted?)
          && (i.Some? && i.value.id == k.id && k.desired.InstDeleted? ==> i.value.desired.InstDeleted?))
  }

  /** What never changes, or only in one direction, after it was read. */
  predicate SnapInv(j: Joint) {
    var h := j.w.host;
    && (j.snap.Some? ==> j.snap.value.host.hasProvider == h.hasProvider)
    && (j.snap.Some? && j.w.instance.Some? && j.w.instance.value.id == j.snap.value.inst.id ==>
          j.snap.value.inst.os == j.w.instance.value.os)
    && (j.hsnap.Some? ==>
          && j.hsnap.value.host.hasProvider == h.hasProvider
          && (j.hsnap.value.host.desired.HostUntrusted? ==> h.desired.HostUntrusted? || h.desired.HostDeleted?)
          && (j.hsnap.value.host.desired.HostDeleted? ==> h.desired.HostDeleted?))
  }

  /** UNTRUSTED and DELETED hosts hold no credentials and none are about to be issued; a DELETED host has no
      instance and is settled. */
  predicate HostInv(j: Joint) {
    var h := j.w.host;
    && (h.current.HostUntrusted? ==>
          !j.w.credentials && Quiet(j) && (h.desired.HostUntrusted? || h.desired.HostDeleted?))
    && (h.current.HostDeleted? ==>
          && !j.w.credentials && Quiet(j) && h.desired.HostDeleted? && j.w.instance.None?
          && (j.hsnap.Some? ==> j.hsnap.value.host.desired.HostDeleted? && j.hsnap.value.host.current.HostDeleted?))
  }

  predicate Inv(s: Setup, j: Joint) {
    InstanceInv(s, j) && SnapInv(j) && HostInv(j)
  }

  /** The guard of a host reconciliation in flight: when it invalidates, nothing is about to issue credentials;
      when it deletes, neither is a stream request, no instance was attached meanwhile, and credentials that it
      takes for revoked already are. */
  predicate Sound(s: Setup, j: Joint) {
    j.hsnap.Some? ==>
      var h := j.hsnap.value;
      && (WillInvalidate(h) ==> Quiet(j))
      && (WillDelete(s, h) ==>
            j.w.instance.None? && j.onboarding == 0 && (h.host.current.HostUntrusted? ==> !j.w.credentials))
  }

  /** Every host reconciliation of the run takes effect in a state in which it is sound. */
  predicate SoundRun(s: Setup, j: Joint, steps: seq<Step>)
    decreases |steps|
  {
    steps == [] ||
    (Possible(s, j, steps[0]) ==>
       (steps[0].ActHost? ==> Sound(s, j)) && SoundRun(s, Apply(s, j, steps[0]), steps[1..]))
  }

  /** A host reconciliation that takes effect on what it has just read is sound exactly if nothing is about to
      issue credentials to a host it invalidates, and no stream request to one it deletes. */
  lemma PromptIsSoundIff(s: Setup, j: Joint)
    requires Inv(s, j) && j.hsnap == Some(Snap(j.w))
    ensures Sound(s, j) <==>
      && (WillInvalidate(j.hsnap.value) ==> Quiet(j))
      && (WillDelete(s, j.hsnap.value) ==> j.onboarding == 0)
  {
  }

  lemma FinishedDoesNothing(t: Texts, h: Host, i: Instance, w: World, c: Calls)
    requires Finished(i)
    ensures Reconciled(t, h, i, w, c).0 == w
  {
  }

  /** What one host reconciliation can do, however old its snapshot is. */
  lemma HostReconcileEffects(full: bool, h: HostSnapshot, w: World, o: Oracle)
    ensures var r := ReconciledHost(full, h, w, o).0;
      && r.instance == w.instance && r.workflow == w.workflow
      && r.host.desired == w.host.desired && r.host.hasProvider == w.host.hasProvider
      && (r.credentials ==> w.credentials)
      && (r.host.current == w.host.current || r.host.current.HostUntrusted? || r.host.current.HostDeleted?)
  {
    DeleteHostAttempt(full, h, w, o);
  }

  /** When it changes the state of the host, and what holds then. */
  lemma HostStateEffects(s: Setup, h: HostSnapshot, w: World, o: Oracle)
    ensures var r := ReconciledHost(s.full, h, w, o).0;
      && (r.host.current != w.host.current ==> WillInvalidate(h) || WillDelete(s, h))
      && (r.host.current != w.host.current && WillInvalidate(h) ==> r.host.current.HostUntrusted? && !r.credentials)
      && (r.host.current != w.host.current && WillDelete(s, h) ==>
            && r.host.current.HostDeleted?
            && ChildrenGone(h, w.host.parts.addresses, r.live)
            && (r.credentials ==> h.host.current.HostUntrusted? && w.credentials))
      && (o == [] ==> WillInvalidate(h) ==> r.host.current.HostUntrusted?)
      && (o == [] ==> WillDelete(s, h) ==> r.host.current.HostDeleted?)
  {
    DeleteHostAttempt(s.full, h, w, o);
  }

  lemma StepKeepsInstanceInv(s: Setup, j: Joint, step: Step)
    requires Possible(s, j, step) && InstanceInv(s, j)
    ensures InstanceInv(s, Apply(s, j, step))
  {
    match step
    case Act(c) =>
      var k := j.snap.value;
      ReconcileKeeps(s.texts, k.host, k.inst, j.w, c);
      ReconcileEffects(s.texts, k.host, k.inst, j.w, c);
      if Finished(k.inst) {
        FinishedDoesNothing(s.texts, k.host, k.inst, j.w, c);
      }
    case ActHost(o) => HostReconcileEffects(s.full, j.hsnap.value, j.w, o);
    case _ =>
  }

  lemma StepKeepsSnapInv(s: Setup, j: Joint, step: Step)
    requires Possible(s, j, step) && InstanceInv(s, j) && SnapInv(j)
    ensures SnapInv(Apply(s, j, step))
  {
    match step
    case Act(c) => ActKeepsSnapInv(s, j, c);
    case ActHost(o) => ActHostKeepsSnapInv(s, j, o);
    case _ =>
  }

  lemma ActKeepsSnapInv(s: Setup, j: Joint, c: Calls)
    requires j.snap.Some? && SnapInv(j)
    ensures SnapInv(Apply(s, j, Act(c)))
  {
    ReconcileKeeps(s.texts, j.snap.value.host, j.snap.value.inst, j.w, c);
  }

  lemma ActHostKeepsSnapInv(s: Setup, j: Joint, o: Oracle)
    requires j.hsnap.Some? && SnapInv(j)
    ensures SnapInv(Apply(s, j, ActHost(o)))
  {
    HostReconcileEffects(s.full, j.hsnap.value, j.w, o);
  }

  lemma ActKeepsHostInv(s: Setup, j: Joint, c: Calls)
    requires j.snap.Some? && HostInv(j)
    ensures HostInv(Apply(s, j, Act(c)))
  {
    var k := j.snap.value;
    ReconcileKeeps(s.texts, k.host, k.inst, j.w, c);
    ReconcileEffects(s.texts, k.host, k.inst, j.w, c);
  }

  lemma ActHostKeepsHostInv(s: Setup, j: Joint, o: Oracle)
    requires j.hsnap.Some? && Inv(s, j) && Sound(s, j)
    ensures HostInv(Apply(s, j, ActHost(o)))
  {
    HostReconcileEffects(s.full, j.hsnap.value, j.w, o);
    HostStateEffects(s, j.hsnap.value, j.w, o);
  }

  lemma StepKeepsHostInv(s: Setup, j: Joint, step: Step)
    requires Possible(s, j, step) && Inv(s, j) && (step.ActHost? ==> Sound(s, j))
    ensures HostInv(Apply(s, j, step))
  {
    match step
    case Act(c) => ActKeepsHostInv(s, j, c);
    case ActHost(o) => ActHostKeepsHostInv(s, j, o);
    case _ =>
  }

  lemma {:induction false} RunsKeepInv(s: Setup, j: Joint, steps: seq<Step>)
    requires Inv(s, j) && Run(s, j, steps).Some? && SoundRun(s, j, steps)
    ensures Inv(s, Run(s, j, steps).value)
    decreases |steps|
  {
    if steps != [] {
      StepKeepsInstanceInv(s, j, steps[0]);
      StepKeepsSnapInv(s, j, steps[0]);
      StepKeepsHostInv(s, j, steps[0]);
      RunsKeepInv(s, Apply(s, j, steps[0]), steps[1..]);
    }
  }

  lemma {:induction false} RunsKeepSnapshots(s: Setup, j: Joint, steps: seq<Step>)
    requires InstanceInv(s, j) && SnapInv(j) && Run(s, j, steps).Some?
    ensures InstanceInv(s, Run(s, j, steps).value) && SnapInv(Run(s, j, steps).value)
    decreases |steps|
  {
    if steps != [] {
      StepKeepsInstanceInv(s, j, steps[0]);
      StepKeepsSnapInv(s, j, steps[0]);
      RunsKeepSnapshots(s, Apply(s, j, steps[0]), steps[1..]);
    }
  }

  /** On every run, sound or not, an instance that is DELETED has no workflow object left, and neither has a
      host without an instance. */
  lemma InstanceDeletedAfterItsWorkflow(s: Setup, j: Joint, steps: seq<Step>)
    requires Start(j) && Run(s, j, steps).Some?
    ensures var w := Run(s, j, steps).value.w;
      w.instance.None? || w.instance.value.current.InstDeleted? ==> w.workflow.None?
  {
    RunsKeepSnapshots(s, j, steps);
  }

  /** UNTRUSTED and DELETED hosts hold no credentials, and DELETED ones have no instance and no workflow. */
  predicate Safe(w: World) {
    && (w.host.current.HostUntrusted? || w.host.current.HostDeleted? ==> !w.credentials)
    && (w.host.current.HostDeleted? ==> w.instance.None? && w.workflow.None?)
  }

  /** This holds on every sound run. */
  lemma UntrustedAndDeletedAreRevoked(s: Setup, j: Joint, steps: seq<Step>)
    requires Start(j) && Run(s, j, steps).Some? && SoundRun(s, j, steps)
    ensures Safe(Run(s, j, steps).value.w)
  {
    RunsKeepInv(s, j, steps);
  }

  /** The reconciliation that makes a host DELETED leaves no instance, no workflow, no child that it read and
      no credentials, even when it skips the revocation because the host was UNTRUSTED. */
  lemma HostDeletedLast(s: Setup, j: Joint, steps: seq<Step>, o: Oracle)
    requires Start(j) && Run(s, j, steps).Some? && SoundRun(s, j, steps + [ActHost(o)])
    ensures var k := Run(s, j, steps).value;
      k.hsnap.Some? && !k.w.host.current.HostDeleted? && Apply(s, k, ActHost(o)).w.host.current.HostDeleted? ==>
        var r := Apply(s, k, ActHost(o)).w;
        && r.instance.None? && r.workflow.None? && !r.credentials
        && ChildrenGone(k.hsnap.value, k.w.host.parts.addresses, r.live)
  {
    SoundPrefix(s, j, steps, ActHost(o));
    RunsKeepInv(s, j, steps);
    var k := Run(s, j, steps).value;
    if k.hsnap.Some? && !k.w.host.current.HostDeleted? {
      DeletedLast(s, k, o);
    }
  }

  lemma DeletedLast(s: Setup, k: Joint, o: Oracle)
    requires Inv(s, k) && k.hsnap.Some? && Sound(s, k)
    requires !k.w.host.current.HostDeleted? && Possible(s, k, ActHost(o))
    ensures var r := Apply(s, k, ActHost(o)).w;
      r.host.current.HostDeleted? ==>
        && r.instance.None? && r.workflow.None? && !r.credentials
        && ChildrenGone(k.hsnap.value, k.w.host.parts.addresses, r.live)
  {
    HostReconcileEffects(s.full, k.hsnap.value, k.w, o);
    HostStateEffects(s, k.hsnap.value, k.w, o);
  }

  lemma {:induction false} SoundPrefix(s: Setup, j: Joint, steps: seq<Step>, last: Step)
    requires Run(s, j, steps).Some? && SoundRun(s, j, steps + [last])
    ensures SoundRun(s, j, steps)
    ensures var k := Run(s, j, steps).value; Possible(s, k, last) && last.ActHost? ==> Sound(s, k)
    decreases |steps|
  {
    if steps != [] {
      assert (steps + [last])[1..] == steps[1..] + [last];
      SoundPrefix(s, Apply(s, j, steps[0]), steps[1..], last);
    } else {
      assert steps + [last] == [last];
    }
  }

  // ---------------------------------------------------------------------------------------------
  // Soundness is necessary.
  // ---------------------------------------------------------------------------------------------

  /** Some run of allowed steps leads from j to k. */
  ghost predicate Reaches(s: Setup, j: Joint, k: Joint, allowed: Step -> bool) {
    exists steps :: Run(s, j, steps) == Some(k) && AllAllowed(steps, allowed)
  }

  predicate AllAllowed(steps: seq<Step>, allowed: Step -> bool) {
    forall n :: 0 <= n < |steps| ==> allowed(steps[n])
  }

  lemma {:induction false} RunConcat(s: Setup, j: Joint, a: seq<Step>, b: seq<Step>)
    requires Run(s, j, a).Some?
    ensures Run(s, j, a + b) == Run(s, Run(s, j, a).value, b)
    decreases |a|
  {
    if a == [] {
      assert a + b == b;
    } else {
      assert (a + b)[0] == a[0] && (a + b)[1..] == a[1..] + b;
      RunConcat(s, Apply(s, j, a[0]), a[1..], b);
    }
  }

  lemma StepReaches(s: Setup, j: Joint, step: Step, allowed: Step -> bool)
    requires Possible(s, j, step) && allowed(step)
    ensures Reaches(s, j, Apply(s, j, step), allowed)
  {
    assert [step][1..] == [];
    assert Run(s, j, [step]) == Run(s, Apply(s, j, step), []);
    assert AllAllowed([step], allowed);
  }

  lemma StayReaches(s: Setup, j: Joint, allowed: Step -> bool)
    ensures Reaches(s, j, j, allowed)
  {
    assert Run(s, j, []) == Some(j) && AllAllowed([], allowed);
  }

  lemma ReachesThrough(s: Setup, j: Joint, k: Joint, l: Joint, allowed: Step -> bool)
    requires Reaches(s, j, k, allowed) && Reaches(s, k, l, allowed)
    ensures Reaches(s, j, l, allowed)
  {
    var a :| Run(s, j, a) == Some(k) && AllAllowed(a, allowed);
    var b :| Run(s, k, b) == Some(l) && AllAllowed(b, allowed);
    RunConcat(s, j, a, b);
    assert AllAllowed(a + b, allowed);
  }

  /** One more step. */
  lemma ThenStep(s: Setup, j: Joint, k: Joint, step: Step, allowed: Step -> bool)
    requires Reaches(s, j, k, allowed) && Possible(s, k, step) && allowed(step)
    ensures Reaches(s, j, Apply(s, k, step), allowed)
  {
    StepReaches(s, k, step, allowed);
    ReachesThrough(s, j, k, Apply(s, k, step), allowed);
  }

  /** How credentials are issued next. */
  function NextIssue(j: Joint): Step {
    if Danger(j) then Act(ALL_SUCCEED) else StreamOnboard(true, false)
  }

  predicate Any(step: Step) {
    true
  }

  predicate Calm(step: Step) {
    !step.SetHostDesired?
  }

  /** Whatever is about to issue credentials can issue them next. */
  lemma CredentialsFollow(s: Setup, j: Joint) returns (k: Joint)
    requires !Quiet(j)
    ensures Possible(s, j, NextIssue(j)) && k == Apply(s, j, NextIssue(j))
    ensures Reaches(s, j, k, Any) && k.w.credentials && k.w.host.current == j.w.host.current
    ensures Reaches(s, j, k, Calm)
  {
    if Danger(j) {
      ReconcileKeeps(s.texts, j.snap.value.host, j.snap.value.inst, j.w, ALL_SUCCEED);
    }
    k := Apply(s, j, NextIssue(j));
    StepReaches(s, j, NextIssue(j), Any);
    StepReaches(s, j, NextIssue(j), Calm);
  }

  ghost predicate AlwaysSafe(s: Setup, j: Joint) {
    forall steps: seq<Step> :: Run(s, j, steps).Some? ==> Safe(Run(s, j, steps).value.w)
  }

  /** A host reconciliation that is not sound breaks safety: at once, or with the credentials issued next. */
  lemma UnsoundContinues(s: Setup, j: Joint) returns (steps: seq<Step>)
    requires !Sound(s, j)
    ensures var k := Apply(s, j, ActHost([]));
      SoundRun(s, k, steps) && Run(s, k, steps).Some? && !Safe(Run(s, k, steps).value.w)
  {
    HostReconcileEffects(s.full, j.hsnap.value, j.w, []);
    HostStateEffects(s, j.hsnap.value, j.w, []);
    var k := Apply(s, j, ActHost([]));
    steps := [];
    if Safe(k.w) {
      var l := CredentialsFollow(s, k);
      steps := [NextIssue(k)];
      assert steps[1..] == [];
      assert Run(s, k, steps) == Run(s, l, []) && SoundRun(s, k, steps) == SoundRun(s, l, []);
    }
  }

  lemma UnsoundBreaksSafety(s: Setup, j: Joint) returns (k: Joint)
    requires !Sound(s, j)
    ensures Reaches(s, j, k, Any) && !Safe(k.w)
  {
    var steps := UnsoundContinues(s, j);
    var l := Apply(s, j, ActHost([]));
    k := Run(s, l, steps).value;
    assert AllAllowed(steps, Any);
    StepReaches(s, j, ActHost([]), Any);
    ReachesThrough(s, j, l, k, Any);
  }

  /** What follows when a host reconciliation takes effect is safe. */
  ghost predicate SafeOnwards(s: Setup, j: Joint, o: Oracle)
    requires j.hsnap.Some?
  {
    var k := Apply(s, j, ActHost(o));
    forall steps: seq<Step> :: Run(s, k, steps).Some? && SoundRun(s, k, steps) ==> Safe(Run(s, k, steps).value.w)
  }

  /** The guard is exact at every state: a host reconciliation in flight is sound if and only if, however its
      calls end, all sound runs after it are safe. */
  lemma SoundIff(s: Setup, j: Joint)
    requires Inv(s, j) && j.hsnap.Some?
    ensures Sound(s, j) <==> forall o :: SafeOnwards(s, j, o)
  {
    if Sound(s, j) {
      forall o ensures SafeOnwards(s, j, o) {
        var k := Apply(s, j, ActHost(o));
        StepKeepsInstanceInv(s, j, ActHost(o));
        StepKeepsSnapInv(s, j, ActHost(o));
        StepKeepsHostInv(s, j, ActHost(o));
        forall steps: seq<Step> | Run(s, k, steps).Some? && SoundRun(s, k, steps)
          ensures Safe(Run(s, k, steps).value.w)
        {
          RunsKeepInv(s, k, steps);
        }
      }
    } else {
      var steps := UnsoundContinues(s, j);
      assert !SafeOnwards(s, j, []);
    }
  }

  // ---------------------------------------------------------------------------------------------
  // From which states everything that can happen is safe.
  // ---------------------------------------------------------------------------------------------

  /** Without OS provisioning: no stream request is about to issue credentials, none can start, and no deletion
      in flight takes live credentials for revoked ones. */
  predicate NoMoreCredentials(s: Setup, j: Joint) {
    var h := j.w.host;
    && j.onboarding == 0
    && (h.desired.HostUntrusted? || h.desired.HostDeleted? || (h.current.HostOnboarded? && j.registering == 0))
    && (j.hsnap.Some? && WillDelete(s, j.hsnap.value) && j.hsnap.value.host.current.HostUntrusted? ==> !j.w.credentials)
  }

  /** The host is not reconciled here, or is DELETED, or nothing can issue credentials for it any more. */
  predicate Secure(s: Setup, j: Joint) {
    j.w.host.hasProvider || j.w.host.current.HostDeleted? || (!s.full && NoMoreCredentials(s, j))
  }

  lemma SecureIsSound(s: Setup, j: Joint)
    requires Inv(s, j) && Secure(s, j)
    ensures Sound(s, j)
  {
  }

  lemma StepKeepsSecure(s: Setup, j: Joint, step: Step)
    requires Possible(s, j, step) && Inv(s, j) && Secure(s, j)
    ensures Secure(s, Apply(s, j, step))
  {
    match step
    case Act(c) => ReconcileKeeps(s.texts, j.snap.value.host, j.snap.value.inst, j.w, c);
    case ActHost(o) =>
      HostReconcileEffects(s.full, j.hsnap.value, j.w, o);
      HostStateEffects(s, j.hsnap.value, j.w, o);
    case _ =>
  }

  lemma {:induction false} SecureRunsAreSafe(s: Setup, j: Joint, steps: seq<Step>)
    requires Inv(s, j) && Secure(s, j) && Run(s, j, steps).Some?
    ensures Safe(Run(s, j, steps).value.w)
    decreases |steps|
  {
    if steps != [] {
      SecureIsSound(s, j);
      StepKeepsInstanceInv(s, j, steps[0]);
      StepKeepsSnapInv(s, j, steps[0]);
      StepKeepsHostInv(s, j, steps[0]);
      StepKeepsSecure(s, j, steps[0]);
      SecureRunsAreSafe(s, Apply(s, j, steps[0]), steps[1..]);
    }
  }

  // The runs that break safety.

  /** The host reconciliation in flight, if any, takes effect. */
  lemma FinishHost(s: Setup, j: Joint) returns (k: Joint)
    requires SnapInv(j)
    ensures Reaches(s, j, k, Any) && Reaches(s, j, k, Calm) && k.hsnap.None? && SnapInv(k)
    ensures k.w.instance == j.w.instance && k.w.workflow == j.w.workflow && k.snap == j.snap
    ensures k.onboarding == j.onboarding && k.registering == j.registering && k.nextId == j.nextId
    ensures k.w.host.hasProvider == j.w.host.hasProvider && k.w.host.desired == j.w.host.desired
    ensures InstanceInv(s, j) ==> InstanceInv(s, k)
    ensures j.hsnap.None? || (!WillInvalidate(j.hsnap.value) && !WillDelete(s, j.hsnap.value)) ==>
      k.w.host.current == j.w.host.current
    ensures j.hsnap.Some? && WillInvalidate(j.hsnap.value) ==> k.w.host.current.HostUntrusted?
    ensures j.hsnap.Some? && WillDelete(s, j.hsnap.value) ==> k.w.host.current.HostDeleted?
  {
    k := j;
    StayReaches(s, j, Any);
    StayReaches(s, j, Calm);
    if j.hsnap.Some? {
      HostReconcileEffects(s.full, j.hsnap.value, j.w, []);
      HostStateEffects(s, j.hsnap.value, j.w, []);
      StepReaches(s, j, ActHost([]), Any);
      StepReaches(s, j, ActHost([]), Calm);
      k := Apply(s, j, ActHost([]));
      if InstanceInv(s, j) {
        StepKeepsInstanceInv(s, j, ActHost([]));
      }
    }
  }

  /** The instance reconciliation in flight, if any, takes effect without success. */
  lemma FinishInstance(s: Setup, j: Joint) returns (k: Joint)
    requires InstanceInv(s, j) && SnapInv(j)
    ensures Reaches(s, j, k, Any) && k.snap.None? && InstanceInv(s, k) && SnapInv(k)
    ensures k.hsnap == j.hsnap && (k.w.instance.Some? <==> j.w.instance.Some?)
    ensures k.w.host == j.w.host.(status := k.w.host.status, onboarding := k.w.host.onboarding)
  {
    k := j;
    StayReaches(s, j, Any);
    if j.snap.Some? {
      ReconcileKeeps(s.texts, j.snap.value.host, j.snap.value.inst, j.w, ALL_FAIL);
      StepKeepsInstanceInv(s, j, Act(ALL_FAIL));
      StepKeepsSnapInv(s, j, Act(ALL_FAIL));
      StepReaches(s, j, Act(ALL_FAIL), Any);
      k := Apply(s, j, Act(ALL_FAIL));
    }
  }

  lemma ReconcilingDeletes(t: Texts, h: Host, i: Instance, w: World)
    requires Fresh(h, i, w) && i.desired.InstDeleted? && !h.hasProvider
    ensures Reconciled(t, h, i, w, ALL_SUCCEED).0.instance == Some(i.(current := InstDeleted))
  {
  }

  /** The stores as the Instance reconciler has just read them. */
  predicate Fresh(h: Host, i: Instance, w: World) {
    w.host == h && w.instance == Some(i)
  }

  /** The user can have the instance removed, whatever is in flight. */
  lemma RemoveInstance(s: Setup, j: Joint) returns (k: Joint)
    requires InstanceInv(s, j) && SnapInv(j) && !j.w.host.hasProvider
    ensures Reaches(s, j, k, Any) && k.snap.None? && k.w.instance.None? && k.w.workflow.None? && k.hsnap == j.hsnap
    ensures k.w.host == j.w.host.(status := k.w.host.status, onboarding := k.w.host.onboarding)
  {
    var l := FinishInstance(s, j);
    k := l;
    if l.w.instance.Some? {
      ThenStep(s, j, l, SetInstanceDesired(InstDeleted), Any);
      var l1 := Apply(s, l, SetInstanceDesired(InstDeleted));
      ThenStep(s, j, l1, Fetch, Any);
      var l2 := Apply(s, l1, Fetch);
      var i := l1.w.instance.value;
      ReconcilingDeletes(s.texts, l1.w.host, i, l1.w);
      ReconcileKeeps(s.texts, l1.w.host, i, l1.w, ALL_SUCCEED);
      ThenStep(s, j, l2, Act(ALL_SUCCEED), Any);
      var l3 := Apply(s, l2, Act(ALL_SUCCEED));
      RemovedHasNoWorkflow(s, l, l1, l2, l3);
      ThenStep(s, j, l3, Purge, Any);
      k := Apply(s, l3, Purge);
    }
  }

  lemma RemovedHasNoWorkflow(s: Setup, l: Joint, l1: Joint, l2: Joint, l3: Joint)
    requires InstanceInv(s, l) && l.snap.None? && l.w.instance.Some?
    requires l1 == Apply(s, l, SetInstanceDesired(InstDeleted))
    requires Possible(s, l1, Fetch) && l2 == Apply(s, l1, Fetch) && l3 == Apply(s, l2, Act(ALL_SUCCEED))
    requires l3.w.instance.Some? && l3.w.instance.value.current.InstDeleted?
    ensures l3.w.workflow.None?
  {
    StepKeepsInstanceInv(s, l, SetInstanceDesired(InstDeleted));
    StepKeepsInstanceInv(s, l1, Fetch);
    StepKeepsInstanceInv(s, l2, Act(ALL_SUCCEED));
  }

  const MUTABLE_OS := Os(true, Mutable, NoMetadata)

  /** With OS provisioning: an Instance attached after a deletion has read the host survives it. */
  lemma DeletedWithInstance(s: Setup, j: Joint) returns (k: Joint)
    requires InstanceInv(s, j) && SnapInv(j) && s.full && !j.w.host.hasProvider && !j.w.host.current.HostDeleted?
    ensures Reaches(s, j, k, Any) && !Safe(k.w)
  {
    if j.hsnap.Some? && WillDelete(s, j.hsnap.value) {
      k := DeletionMeetsInstance(s, j);
    } else {
      var l := FinishHost(s, j);
      var l1 := RemoveInstance(s, l);
      ReachesThrough(s, j, l, l1, Any);
      ThenStep(s, j, l1, SetHostDesired(HostDeleted), Any);
      var l2 := Apply(s, l1, SetHostDesired(HostDeleted));
      ThenStep(s, j, l2, FetchHost, Any);
      var l3 := Apply(s, l2, FetchHost);
      k := DeletionMeetsInstance(s, l3);
      ReachesThrough(s, j, l3, k, Any);
    }
  }

  lemma DeletionMeetsInstance(s: Setup, j: Joint) returns (k: Joint)
    requires s.full && !j.w.host.current.HostDeleted? && j.hsnap.Some? && WillDelete(s, j.hsnap.value)
    ensures Reaches(s, j, k, Any) && !Safe(k.w)
  {
    var l := j;
    StayReaches(s, j, Any);
    if l.w.instance.None? {
      ThenStep(s, j, l, CreateInstance(InstRunning, MUTABLE_OS), Any);
      l := Apply(s, l, CreateInstance(InstRunning, MUTABLE_OS));
    }
    HostReconcileEffects(s.full, l.hsnap.value, l.w, []);
    HostStateEffects(s, l.hsnap.value, l.w, []);
    ThenStep(s, j, l, ActHost([]), Any);
    k := Apply(s, l, ActHost([]));
  }

  /** Without OS provisioning: a stream request about to issue credentials outlasts deletion. */
  lemma DeletedWithCredentials(s: Setup, j: Joint) returns (k: Joint)
    requires SnapInv(j) && !s.full && !j.w.host.hasProvider && j.onboarding > 0
    ensures Reaches(s, j, k, Any) && !Safe(k.w)
  {
    var l := FinishHost(s, j);
    if !l.w.host.current.HostUntrusted? && !l.w.host.current.HostDeleted? {
      ThenStep(s, j, l, SetHostDesired(HostDeleted), Any);
      var l1 := Apply(s, l, SetHostDesired(HostDeleted));
      ThenStep(s, j, l1, FetchHost, Any);
      var l2 := Apply(s, l1, FetchHost);
      var l3 := FinishHost(s, l2);
      ReachesThrough(s, j, l2, l3, Any);
      l := l3;
    }
    k := CredentialsFollow(s, l);
    ReachesThrough(s, j, l, k, Any);
  }

  lemma InsecureBreaksSafety(s: Setup, j: Joint) returns (k: Joint)
    requires Inv(s, j) && !Secure(s, j)
    ensures Reaches(s, j, k, Any) && !Safe(k.w)
  {
    if s.full {
      k := DeletedWithInstance(s, j);
    } else if j.onboarding > 0 {
      k := DeletedWithCredentials(s, j);
    } else if !Sound(s, j) {
      k := UnsoundBreaksSafety(s, j);
    } else {
      var l := j;
      StayReaches(s, j, Any);
      if l.w.host.current.HostOnboarded? {
        ThenStep(s, j, l, StreamRegister(true), Any);
        l := Apply(s, l, StreamRegister(true));
      }
      ThenStep(s, j, l, SetHostDesired(HostOnboarded), Any);
      l := Apply(s, l, SetHostDesired(HostOnboarded));
      ThenStep(s, j, l, StreamFetch, Any);
      l := Apply(s, l, StreamFetch);
      k := DeletedWithCredentials(s, l);
      ReachesThrough(s, j, l, k, Any);
    }
  }

  /** Whatever happens from now on, UNTRUSTED and DELETED hosts hold no credentials and DELETED ones have no
      instance, if and only if the host is not reconciled here, or is DELETED already, or, in the profile
      without OS provisioning, nothing can issue credentials for it any more. */
  lemma AlwaysSafeIff(s: Setup, j: Joint)
    requires Inv(s, j)
    ensures AlwaysSafe(s, j) <==> Secure(s, j)
  {
    if Secure(s, j) {
      forall steps: seq<Step> | Run(s, j, steps).Some? ensures Safe(Run(s, j, steps).value.w) {
        SecureRunsAreSafe(s, j, steps);
      }
    } else {
      var k := InsecureBreaksSafety(s, j);
      var steps :| Run(s, j, steps) == Some(k) && AllAllowed(steps, Any);
    }
  }

  /** So with OS provisioning an unsafe state can be reached from every start. */
  lemma UnsafeIsReachable(s: Setup, j: Joint) returns (k: Joint)
    requires Start(j) && s.full && !j.w.host.hasProvider
    ensures Reaches(s, j, k, Any) && !Safe(k.w)
  {
    k := InsecureBreaksSafety(s, j);
  }

  // ---------------------------------------------------------------------------------------------
  // When a host may be deauthorised.
  // ---------------------------------------------------------------------------------------------

  /** Deletion is not asked for while an invalidation of the host is in flight. */
  predicate Patient(s: Setup, j: Joint, steps: seq<Step>)
    decreases |steps|
  {
    steps == [] ||
    (Possible(s, j, steps[0]) ==>
       && (steps[0] == SetHostDesired(HostDeleted) && j.hsnap.Some? ==> !WillInvalidate(j.hsnap.value))
       && Patient(s, Apply(s, j, steps[0]), steps[1..]))
  }

  predicate Revoked(w: World) {
    w.host.current.HostUntrusted? ==> !w.credentials
  }

  ghost predicate AlwaysRevoked(s: Setup, j: Joint) {
    forall steps: seq<Step> :: Run(s, j, steps).Some? ==> Revoked(Run(s, j, steps).value.w)
  }

  ghost predicate PatientlyRevoked(s: Setup, j: Joint) {
    forall steps: seq<Step> :: Run(s, j, steps).Some? && Patient(s, j, steps) ==> Revoked(Run(s, j, steps).value.w)
  }

  /** A host that is to be UNTRUSTED or DELETED: as long as it counts as deauthorised, nothing is about to issue
      credentials for it. */
  predicate Revocable(j: Joint) {
    var h := j.w.host;
    && (h.desired.HostUntrusted? || h.desired.HostDeleted?)
    && (Deauthorised(h) ==> Quiet(j))
    && (h.current.HostUntrusted? ==> !j.w.credentials)
    && (j.hsnap.Some? && WillInvalidate(j.hsnap.value) ==> h.desired.HostUntrusted?)
  }

  lemma StepKeepsRevocable(s: Setup, j: Joint, step: Step)
    requires Possible(s, j, step) && Revocable(j)
    requires step == SetHostDesired(HostDeleted) && j.hsnap.Some? ==> !WillInvalidate(j.hsnap.value)
    ensures Revocable(Apply(s, j, step))
  {
    match step
    case Act(c) =>
      var k := j.snap.value;
      ReconcileKeeps(s.texts, k.host, k.inst, j.w, c);
      ReconcileEffects(s.texts, k.host, k.inst, j.w, c);
    case ActHost(o) =>
      HostReconcileEffects(s.full, j.hsnap.value, j.w, o);
      HostStateEffects(s, j.hsnap.value, j.w, o);
    case _ =>
  }

  lemma {:induction false} RunsKeepRevocable(s: Setup, j: Joint, steps: seq<Step>)
    requires Revocable(j) && Run(s, j, steps).Some? && Patient(s, j, steps)
    ensures Revocable(Run(s, j, steps).value)
    decreases |steps|
  {
    if steps != [] {
      StepKeepsRevocable(s, j, steps[0]);
      RunsKeepRevocable(s, Apply(s, j, steps[0]), steps[1..]);
    }
  }

  lemma {:induction false} CalmRunsArePatient(s: Setup, j: Joint, steps: seq<Step>)
    requires AllAllowed(steps, Calm)
    ensures Patient(s, j, steps)
    decreases |steps|
  {
    if steps != [] && Possible(s, j, steps[0]) {
      CalmRunsArePatient(s, Apply(s, j, steps[0]), steps[1..]);
    }
  }

  /** An invalidation takes effect before something issues credentials. */
  lemma IssuesAfterInvalidation(s: Setup, j: Joint) returns (k: Joint)
    requires j.hsnap.Some? && WillInvalidate(j.hsnap.value) && !Quiet(j)
    ensures Reaches(s, j, k, Any) && Reaches(s, j, k, Calm) && k.w.host.current.HostUntrusted? && k.w.credentials
  {
    HostReconcileEffects(s.full, j.hsnap.value, j.w, []);
    HostStateEffects(s, j.hsnap.value, j.w, []);
    StepReaches(s, j, ActHost([]), Any);
    StepReaches(s, j, ActHost([]), Calm);
    var l := Apply(s, j, ActHost([]));
    k := CredentialsFollow(s, l);
    ReachesThrough(s, j, l, k, Any);
    ReachesThrough(s, j, l, k, Calm);
  }

  /** From a deauthorised host with something about to issue credentials, it becomes UNTRUSTED with live ones. */
  lemma UntrustedWithCredentials(s: Setup, j: Joint) returns (k: Joint)
    requires SnapInv(j) && !Quiet(j) && !j.w.host.hasProvider
    requires j.w.host.desired.HostUntrusted? && !j.w.host.current.HostUntrusted?
    ensures Reaches(s, j, k, Calm)
    ensures k.w.host.current.HostUntrusted? && k.w.credentials
  {
    var l := j;
    StayReaches(s, j, Calm);
    if l.hsnap.Some? && !WillInvalidate(l.hsnap.value) {
      HostStateEffects(s, l.hsnap.value, l.w, []);
      ThenStep(s, j, l, ActHost([]), Calm);
      l := Apply(s, l, ActHost([]));
    }
    if l.hsnap.None? {
      ThenStep(s, j, l, FetchHost, Calm);
      l := Apply(s, l, FetchHost);
    }
    k := IssuesAfterInvalidation(s, l);
    ReachesThrough(s, j, l, k, Calm);
  }

  /** Deauthorising a host keeps "UNTRUSTED implies revoked" in all patient continuations if and only if no
      instance reconciliation and no stream request in flight is about to issue credentials: otherwise the
      host can end up UNTRUSTED with live credentials, and deleting it would not revoke them. */
  lemma PatientDeauthorisingIsSafeIff(s: Setup, j: Joint)
    requires SnapInv(j) && Possible(s, j, SetHostDesired(HostUntrusted))
    requires !j.w.host.hasProvider && !j.w.host.current.HostUntrusted?
    ensures PatientlyRevoked(s, Apply(s, j, SetHostDesired(HostUntrusted))) <==> Quiet(j)
  {
    var j1 := Apply(s, j, SetHostDesired(HostUntrusted));
    if Quiet(j) {
      forall steps: seq<Step> | Run(s, j1, steps).Some? && Patient(s, j1, steps)
        ensures Revoked(Run(s, j1, steps).value.w)
      {
        RunsKeepRevocable(s, j1, steps);
      }
    } else {
      var k := UntrustedWithCredentials(s, j1);
      var steps :| Run(s, j1, steps) == Some(k) && AllAllowed(steps, Calm);
      CalmRunsArePatient(s, j1, steps);
    }
  }

  /** The run that patience excludes, for every deauthorised host with OS provisioning: the invalidation has
      read the host, deletion is asked for, so the host no longer counts as deauthorised, the node onboards
      once more, a new Instance is read, and then the invalidation takes effect before the credentials of that
      Instance are issued. */
  lemma DeletionOvertakesInvalidation(s: Setup, j: Joint) returns (k: Joint)
    requires InstanceInv(s, j) && SnapInv(j) && s.full && !j.w.host.hasProvider
    requires j.w.host.desired.HostUntrusted? && !j.w.host.current.HostUntrusted? && !j.w.host.current.HostDeleted?
    ensures Reaches(s, j, k, Any) && k.w.host.current.HostUntrusted? && k.w.credentials
  {
    var l := RemoveInstance(s, j);
    if l.hsnap.Some? && !WillInvalidate(l.hsnap.value) {
      HostReconcileEffects(s.full, l.hsnap.value, l.w, []);
      HostStateEffects(s, l.hsnap.value, l.w, []);
      ThenStep(s, j, l, ActHost([]), Any);
      l := Apply(s, l, ActHost([]));
    }
    if l.hsnap.None? {
      ThenStep(s, j, l, FetchHost, Any);
      l := Apply(s, l, FetchHost);
    }
    k := InvalidationMeetsInstance(s, l);
    ReachesThrough(s, j, l, k, Any);
  }

  lemma InvalidationMeetsInstance(s: Setup, j: Joint) returns (k: Joint)
    requires s.full && !j.w.host.hasProvider && j.w.host.desired.HostUntrusted? && !j.w.host.current.HostDeleted?
    requires j.snap.None? && j.w.instance.None? && j.w.workflow.None?
    requires j.hsnap.Some? && WillInvalidate(j.hsnap.value)
    ensures Reaches(s, j, k, Any) && k.w.host.current.HostUntrusted? && k.w.credentials
  {
    StepReaches(s, j, SetHostDesired(HostDeleted), Any);
    var l := Apply(s, j, SetHostDesired(HostDeleted));
    ThenStep(s, j, l, InteractiveOnboard(true), Any);
    l := Apply(s, l, InteractiveOnboard(true));
    ThenStep(s, j, l, CreateInstance(InstRunning, MUTABLE_OS), Any);
    l := Apply(s, l, CreateInstance(InstRunning, MUTABLE_OS));
    ThenStep(s, j, l, Fetch, Any);
    l := Apply(s, l, Fetch);
    assert Danger(l);
    k := IssuesAfterInvalidation(s, l);
    ReachesThrough(s, j, l, k, Any);
  }

  /** A host that can no longer become UNTRUSTED with live credentials: it is not reconciled here, or, without
      OS provisioning, no stream request can issue any. */
  predicate Settling(s: Setup, j: Joint) {
    && Revoked(j.w)
    && if j.w.host.hasProvider then !j.w.host.current.HostUntrusted?
       else !s.full && j.onboarding == 0 && (j.w.host.desired.HostUntrusted? || j.w.host.desired.HostDeleted?)
  }

  lemma StepKeepsSettling(s: Setup, j: Joint, step: Step)
    requires Possible(s, j, step) && InstanceInv(s, j) && SnapInv(j) && Settling(s, j)
    ensures Settling(s, Apply(s, j, step))
  {
    match step
    case Act(c) => ReconcileKeeps(s.texts, j.snap.value.host, j.snap.value.inst, j.w, c);
    case ActHost(o) =>
      HostReconcileEffects(s.full, j.hsnap.value, j.w, o);
      HostStateEffects(s, j.hsnap.value, j.w, o);
    case _ =>
  }

  lemma {:induction false} RunsKeepSettling(s: Setup, j: Joint, steps: seq<Step>)
    requires InstanceInv(s, j) && SnapInv(j) && Settling(s, j) && Run(s, j, steps).Some?
    ensures Settling(s, Run(s, j, steps).value)
    decreases |steps|
  {
    if steps != [] {
      StepKeepsInstanceInv(s, j, steps[0]);
      StepKeepsSnapInv(s, j, steps[0]);
      StepKeepsSettling(s, j, steps[0]);
      RunsKeepSettling(s, Apply(s, j, steps[0]), steps[1..]);
    }
  }

  /** Deauthorising a host keeps "UNTRUSTED implies revoked" in all continuations if and only if the host is not
      reconciled here, or, in the profile without OS provisioning, no stream request in flight is about to
      issue credentials. With OS provisioning it never does. */
  lemma DeauthorisingIsSafeIff(s: Setup, j: Joint)
    requires InstanceInv(s, j) && SnapInv(j) && Possible(s, j, SetHostDesired(HostUntrusted))
    requires !j.w.host.current.HostUntrusted? && !j.w.host.current.HostDeleted?
    ensures AlwaysRevoked(s, Apply(s, j, SetHostDesired(HostUntrusted))) <==>
      j.w.host.hasProvider || (!s.full && j.onboarding == 0)
  {
    var j1 := Apply(s, j, SetHostDesired(HostUntrusted));
    StepKeepsInstanceInv(s, j, SetHostDesired(HostUntrusted));
    StepKeepsSnapInv(s, j, SetHostDesired(HostUntrusted));
    if j.w.host.hasProvider || (!s.full && j.onboarding == 0) {
      forall steps: seq<Step> | Run(s, j1, steps).Some? ensures Revoked(Run(s, j1, steps).value.w) {
        RunsKeepSettling(s, j1, steps);
      }
    } else if s.full {
      var k := DeletionOvertakesInvalidation(s, j1);
      var steps :| Run(s, j1, steps) == Some(k) && AllAllowed(steps, Any);
    } else {
      var k := UntrustedWithCredentials(s, j1);
      var steps :| Run(s, j1, steps) == Some(k) && AllAllowed(steps, Calm);
    }
  }

  // ---------------------------------------------------------------------------------------------
  // Provisioning ERROR is absorbing.
  // ---------------------------------------------------------------------------------------------

  predicate Stuck(j: Joint, id: ResourceId, p: Status) {
    && p.indicator.Error?
    && j.w.instance.Some? && j.w.instance.value.id == id && j.w.instance.value.provisioning == p
    && !j.w.instance.value.desired.InstDeleted? && !j.w.instance.value.current.InstDeleted?
    && (j.snap.Some? ==> j.snap.value.inst.provisioning == p && !j.snap.value.inst.desired.InstDeleted?)
  }

  predicate NeverAskedToDelete(steps: seq<Step>) {
    forall k :: 0 <= k < |steps| ==> steps[k] != SetInstanceDesired(InstDeleted)
  }

  /** Every reconciliation of the instance along the run leaves all stores as they were. */
  predicate ReconcilesIdle(s: Setup, j: Joint, steps: seq<Step>)
    decreases |steps|
  {
    steps == [] ||
    (Possible(s, j, steps[0]) ==>
       (steps[0].Act? ==> Apply(s, j, steps[0]).w == j.w) && ReconcilesIdle(s, Apply(s, j, steps[0]), steps[1..]))
  }

  /** Until the user asks for deletion, an instance in provisioning ERROR keeps its status, and no
      reconciliation of it changes the instance, the workflow, the credentials or anything else. */
  lemma {:induction false} ErrorIsAbsorbing(s: Setup, j: Joint, steps: seq<Step>, id: ResourceId, p: Status)
    requires Stuck(j, id, p) && Run(s, j, steps).Some? && NeverAskedToDelete(steps)
    ensures Stuck(Run(s, j, steps).value, id, p) && ReconcilesIdle(s, j, steps)
    decreases |steps|
  {
    if steps != [] {
      var j1 := Apply(s, j, steps[0]);
      if steps[0].ActHost? {
        HostReconcileEffects(s.full, j.hsnap.value, j.w, steps[0].o);
      }
      assert Stuck(j1, id, p);
      ErrorIsAbsorbing(s, j1, steps[1..], id, p);
    }
  }

  // ---------------------------------------------------------------------------------------------
  // A provisioned instance is not provisioned again, unless a deauthorisation made it forget.
  // ---------------------------------------------------------------------------------------------

  predicate DoneInstance(i: Instance) {
    i.desired.InstRunning? && i.current.InstRunning? && i.provisioning.indicator.Settled?
  }

  predicate Provisioned(j: Joint) {
    j.w.instance.Some? && DoneInstance(j.w.instance.value) && (j.snap.Some? ==> DoneInstance(j.snap.value.inst))
  }

  /** The branch that overwrites the provisioning status of a deauthorised host's instance. */
  predicate Forgets(h: Host, i: Instance) {
    && !h.hasProvider && Deauthorised(h)
    && !(i.running.text == "Unknown" && i.running.detail.NoDetail?) && !AllStatusesIdle(i)
  }

  /** Whatever the snapshot, a reconciliation loses the provisioned mark of the instance exactly when it takes
      that branch, finds the instance still there and its calls succeed. */
  lemma ProvisionedForgottenIff(t: Texts, h: Host, i: Instance, w: World, c: Calls)
    requires DoneInstance(i) && w.instance.Some? && DoneInstance(w.instance.value)
    ensures !DoneInstance(Reconciled(t, h, i, w, c).0.instance.value) <==>
      && Forgets(h, i) && Present(w, i.id) && c.writeInstance == NoErr
      && !(Convertible(i.os) && c.k8sClient == NoErr && c.getWorkflow == NoErr && w.workflow.Some?
           && c.deleteWorkflow != NoErr && c.deleteWorkflow != NotFound)
  {
  }

  lemma StepKeepsProvisioned(s: Setup, j: Joint, step: Step)
    requires Possible(s, j, step) && Provisioned(j)
    requires step.SetInstanceDesired? ==> step.instState.InstRunning?
    requires step.Act? ==> !Forgets(j.snap.value.host, j.snap.value.inst)
    ensures Provisioned(Apply(s, j, step))
    ensures j.w.workflow.None? ==> Apply(s, j, step).w.workflow.None?
  {
    match step
    case ActHost(o) => HostReconcileEffects(s.full, j.hsnap.value, j.w, o);
    case _ =>
  }

  /** The user keeps wanting the instance RUNNING. */
  predicate KeepsWanting(steps: seq<Step>) {
    forall k :: 0 <= k < |steps| && steps[k].SetInstanceDesired? ==> steps[k].instState.InstRunning?
  }

  ghost predicate NeverReprovisioned(s: Setup, j: Joint) {
    forall steps: seq<Step> :: KeepsWanting(steps) && Run(s, j, steps).Some? ==> Run(s, j, steps).value.w.workflow.None?
  }

  /** No reconciliation of this instance provisions anything. */
  predicate Barred(j: Joint) {
    && j.w.workflow.None? && j.w.instance.Some? && j.w.instance.value.desired.InstRunning?
    && (j.w.host.hasProvider || !Provisionable(j.w.instance.value.os))
    && (j.snap.Some? ==> j.snap.value.host.hasProvider || !Provisionable(j.snap.value.inst.os))
  }

  /** The host is to be deleted, and neither it nor anything in flight makes or takes it for deauthorised. */
  predicate Trusted(j: Joint) {
    && j.w.host.desired.HostDeleted? && !j.w.host.current.HostUntrusted?
    && (j.hsnap.Some? ==> !WillInvalidate(j.hsnap.value))
    && (j.snap.Some? ==> !Forgets(j.snap.value.host, j.snap.value.inst))
  }

  lemma StepKeepsBarred(s: Setup, j: Joint, step: Step)
    requires Possible(s, j, step) && Barred(j) && (step.SetInstanceDesired? ==> step.instState.InstRunning?)
    ensures Barred(Apply(s, j, step))
  {
    match step
    case Act(c) =>
      var k := j.snap.value;
      ReconcileKeeps(s.texts, k.host, k.inst, j.w, c);
      ReconcileEffects(s.texts, k.host, k.inst, j.w, c);
    case ActHost(o) => HostReconcileEffects(s.full, j.hsnap.value, j.w, o);
    case _ =>
  }

  lemma StepKeepsTrusted(s: Setup, j: Joint, step: Step)
    requires Possible(s, j, step) && Trusted(j) && Provisioned(j)
    ensures Trusted(Apply(s, j, step))
  {
    match step
    case Act(c) => ReconcileKeeps(s.texts, j.snap.value.host, j.snap.value.inst, j.w, c);
    case ActHost(o) =>
      HostReconcileEffects(s.full, j.hsnap.value, j.w, o);
      HostStateEffects(s, j.hsnap.value, j.w, o);
    case _ =>
  }

  lemma {:induction false} NotAgain(s: Setup, j: Joint, steps: seq<Step>)
    requires Barred(j) || (Trusted(j) && Provisioned(j) && j.w.workflow.None?)
    requires KeepsWanting(steps) && Run(s, j, steps).Some?
    ensures Run(s, j, steps).value.w.workflow.None?
    decreases |steps|
  {
    if steps != [] {
      if Barred(j) {
        StepKeepsBarred(s, j, steps[0]);
      } else {
        StepKeepsTrusted(s, j, steps[0]);
        StepKeepsProvisioned(s, j, steps[0]);
      }
      NotAgain(s, Apply(s, j, steps[0]), steps[1..]);
    }
  }

  // The run that does provision again.

  const ALL_FAIL := Calls(Other, Other, Other, Other, Other, Other, Other, Other, Other, Other)

  const BUSY := Status("Running", NoDetail, Settled)

  /** The provisioned mark is gone, although RUNNING is desired and reported, and nothing is in flight. */
  predicate Forgotten(j: Joint) {
    && j.snap.None? && j.w.workflow.None? && !j.w.host.hasProvider && j.w.instance.Some?
    && j.w.instance.value.desired.InstRunning? && j.w.instance.value.current.InstRunning?
    && j.w.instance.value.provisioning == UNKNOWN && Provisionable(j.w.instance.value.os)
  }

  /** Provisioned, with nothing about the instance in flight. */
  predicate AtRest(j: Joint) {
    && j.snap.None? && j.w.workflow.None? && !j.w.host.hasProvider && j.w.instance.Some?
    && DoneInstance(j.w.instance.value) && Provisionable(j.w.instance.value.os)
  }

  /** A reconciliation that forgets the mark. */
  lemma ForgettingAct(t: Texts, h: Host, i: Instance, w: World)
    requires Forgets(h, i) && DoneInstance(i) && w.workflow.None? && Present(w, i.id)
    ensures var r := Reconciled(t, h, i, w, ALL_SUCCEED).0;
      r == w.(instance := Some(w.instance.value.(
        running := UNKNOWN, provisioning := UNKNOWN, update := UNKNOWN, attestation := UNKNOWN)))
  {
  }

  /** A reconciliation of a provisioned instance all of whose calls fail. */
  lemma FailingAct(t: Texts, h: Host, i: Instance, w: World)
    requires DoneInstance(i) && w.workflow.None?
    ensures Reconciled(t, h, i, w, ALL_FAIL).0 == w
  {
  }

  predicate Wanting(step: Step) {
    !step.SetInstanceDesired?
  }

  lemma FlushSnapshot(s: Setup, j: Joint) returns (k: Joint)
    requires InstanceInv(s, j) && Provisioned(j) && j.w.workflow.None?
    ensures Reaches(s, j, k, Wanting) && k == j.(snap := None)
  {
    k := j;
    StayReaches(s, j, Wanting);
    if j.snap.Some? {
      FailingAct(s.texts, j.snap.value.host, j.snap.value.inst, j.w);
      ThenStep(s, j, j, Act(ALL_FAIL), Wanting);
      k := Apply(s, j, Act(ALL_FAIL));
    }
  }

  lemma ForgetNow(s: Setup, j: Joint) returns (k: Joint)
    requires s.full && AtRest(j) && Deauthorised(j.w.host)
    ensures Reaches(s, j, k, Wanting) && Forgotten(k) && k.w.host == j.w.host
  {
    var busy := HrmStatuses(BUSY, BUSY.(indicator := InProgress), BUSY);
    StepReaches(s, j, busy, Wanting);
    var j1 := Apply(s, j, busy);
    var i := j1.w.instance.value;
    assert i.update in {i.running, i.provisioning, i.update, i.attestation};
    ThenStep(s, j, j1, Fetch, Wanting);
    var j2 := Apply(s, j1, Fetch);
    ForgettingAct(s.texts, j1.w.host, i, j1.w);
    ThenStep(s, j, j2, Act(ALL_SUCCEED), Wanting);
    k := Apply(s, j2, Act(ALL_SUCCEED));
  }

  lemma ForgottenIsProvisioned(s: Setup, j: Joint) returns (k: Joint)
    requires s.full && Forgotten(j) && !j.w.host.desired.HostUntrusted? && !j.w.host.current.HostDeleted?
    ensures Reaches(s, j, k, Wanting) && k.w.workflow.Some?
  {
    StepReaches(s, j, InteractiveOnboard(true), Wanting);
    var j1 := Apply(s, j, InteractiveOnboard(true));
    ThenStep(s, j, j1, Fetch, Wanting);
    var j2 := Apply(s, j1, Fetch);
    WorkflowCreatedIff(s.texts, j1.w.host, j1.w.instance.value, j2.w, ALL_SUCCEED);
    ThenStep(s, j, j2, Act(ALL_SUCCEED), Wanting);
    k := Apply(s, j2, Act(ALL_SUCCEED));
  }

  /** Deauthorised while nothing about the instance is in flight: it is forgotten, deletion of the host is asked
      for, the node onboards once more, and the instance is provisioned again. */
  lemma DeauthorisedIsProvisionedAgain(s: Setup, j: Joint) returns (k: Joint)
    requires s.full && AtRest(j) && Deauthorised(j.w.host) && !j.w.host.current.HostDeleted?
    ensures Reaches(s, j, k, Wanting) && k.w.workflow.Some?
  {
    var l := ForgetNow(s, j);
    ThenStep(s, j, l, SetHostDesired(HostDeleted), Wanting);
    l := Apply(s, l, SetHostDesired(HostDeleted));
    k := ForgottenIsProvisioned(s, l);
    ReachesThrough(s, j, l, k, Wanting);
  }

  /** Outside these conditions a provisioned instance, all the time desired and reported RUNNING, can get a new
      workflow. */
  lemma ForgottenInstanceIsProvisionedAgain(s: Setup, j: Joint) returns (k: Joint)
    requires InstanceInv(s, j) && SnapInv(j) && Provisioned(j) && j.w.workflow.None?
    requires !j.w.host.current.HostDeleted? && !j.w.host.hasProvider
    requires Provisionable(j.w.instance.value.os) && !Trusted(j)
    ensures Reaches(s, j, k, Wanting) && k.w.workflow.Some?
  {
    if j.snap.Some? && Forgets(j.snap.value.host, j.snap.value.inst) && !j.w.host.desired.HostUntrusted? {
      ForgettingAct(s.texts, j.snap.value.host, j.snap.value.inst, j.w);
      StepReaches(s, j, Act(ALL_SUCCEED), Wanting);
      var l := Apply(s, j, Act(ALL_SUCCEED));
      k := ForgottenIsProvisioned(s, l);
      ReachesThrough(s, j, l, k, Wanting);
    } else {
      var l := FlushSnapshot(s, j);
      if !j.w.host.desired.HostDeleted? {
        ThenStep(s, j, l, SetHostDesired(HostUntrusted), Wanting);
        l := Apply(s, l, SetHostDesired(HostUntrusted));
      } else if !j.w.host.current.HostUntrusted? {
        HostReconcileEffects(s.full, l.hsnap.value, l.w, []);
        HostStateEffects(s, l.hsnap.value, l.w, []);
        ThenStep(s, j, l, ActHost([]), Wanting);
        l := Apply(s, l, ActHost([]));
      }
      k := DeauthorisedIsProvisionedAgain(s, l);
      ReachesThrough(s, j, l, k, Wanting);
    }
  }

  /** Once RUNNING with provisioning done has been persisted, no continuation in which RUNNING stays desired
      creates another workflow if and only if the host has a provider, or its OS cannot be provisioned, or the
      host is to be deleted without being deauthorised before. */
  lemma ProvisionedOnceIff(s: Setup, j: Joint)
    requires InstanceInv(s, j) && SnapInv(j) && Provisioned(j) && j.w.workflow.None? && !j.w.host.current.HostDeleted?
    ensures NeverReprovisioned(s, j) <==>
      j.w.host.hasProvider || !Provisionable(j.w.instance.value.os) || Trusted(j)
  {
    if j.w.host.hasProvider || !Provisionable(j.w.instance.value.os) || Trusted(j) {
      forall steps: seq<Step> | KeepsWanting(steps) && Run(s, j, steps).Some?
        ensures Run(s, j, steps).value.w.workflow.None?
      {
        NotAgain(s, j, steps);
      }
    } else {
      var k := ForgottenInstanceIsProvisionedAgain(s, j);
      var steps :| Run(s, j, steps) == Some(k) && AllAllowed(steps, Wanting);
      assert KeepsWanting(steps);
    }
  }

  /** The user keeps wanting the instance RUNNING, and no reconciliation takes the forgetting branch. */
  predicate Remembers(s: Setup, j: Joint, steps: seq<Step>)
    decreases |steps|
  {
    steps == [] ||
    (Possible(s, j, steps[0]) ==>
       && (steps[0].SetInstanceDesired? ==> steps[0].instState.InstRunning?)
       && (steps[0].Act? ==> !Forgets(j.snap.value.host, j.snap.value.inst))
       && Remembers(s, Apply(s, j, steps[0]), steps[1..]))
  }

  /** Run by run: as long as no reconciliation takes that branch, no workflow is created again. */
  lemma {:induction false} ProvisionedOnce(s: Setup, j: Joint, steps: seq<Step>)
    requires Provisioned(j) && j.w.workflow.None? && Run(s, j, steps).Some? && Remembers(s, j, steps)
    ensures Provisioned(Run(s, j, steps).value) && Run(s, j, steps).value.w.workflow.None?
    decreases |steps|
  {
    if steps != [] {
      StepKeepsProvisioned(s, j, steps[0]);
      ProvisionedOnce(s, Apply(s, j, steps[0]), steps[1..]);
    }
  }
}
