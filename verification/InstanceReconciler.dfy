/**
 The Instance reconciler of onboarding-manager. `Reconciled` is the specification of one
 reconciliation from a snapshot of the host and the instance; the class follows the code step by step,
 mutating its copy of the instance and writing it back, and is proved to have exactly that effect.
 */
module InstanceReconciler {
  import opened Wrappers
  import opened StatusDetail
  import opened Inventory

  type Texts = map<string, string>

  /** How each external call of one reconciliation ends. */
  datatype Calls = Calls(
    k8sClient: Err, getWorkflow: Err, credentials: Err, inputs: Err, createWorkflow: Err,
    writeHost: Err, writeOnboarding: Err, writeInstance: Err, deleteWorkflow: Err, writeState: Err)

  const ALL_SUCCEED := Calls(NoErr, NoErr, NoErr, NoErr, NoErr, NoErr, NoErr, NoErr, NoErr, NoErr)

  function NewWorkflow(template: string): Workflow {
    Workflow(template, Empty, [])
  }

  // ---------------------------------------------------------------------------------------------
  // Guards.
  // ---------------------------------------------------------------------------------------------

  predicate Deauthorised(h: Host) {
    h.current.HostUntrusted? || h.desired.HostUntrusted?
  }

  /** Provisioning counts as finished when its indicator or its text says so. */
  predicate ProvisioningDone(p: Status) {
    p.indicator.Settled? || p == PROVISIONED.(indicator := p.indicator)
  }

  predicate AllStatusesIdle(i: Instance) {
    forall s :: s in {i.running, i.provisioning, i.update, i.attestation} ==>
      s.indicator.Settled? || s.indicator.NoIndication?
  }

  function IdleStatuses(i: Instance): Instance {
    i.(running := UNKNOWN, provisioning := UNKNOWN, update := UNKNOWN, attestation := UNKNOWN)
  }

  /** The snapshot leads into provisioning: the host is ONBOARDED, or HRM already moved the instance to
      RUNNING before provisioning was finished. */
  predicate WantsProvisioning(h: Host, i: Instance) {
    && !h.hasProvider
    && !i.provisioning.indicator.Error?
    && i.desired.InstRunning?
    && !Deauthorised(h)
    && (if i.current.InstRunning? then !ProvisioningDone(i.provisioning) else h.current.HostOnboarded?)
  }

  predicate Provisionable(os: Os) {
    Convertible(os) && os.infraProvided
  }

  // ---------------------------------------------------------------------------------------------
  // Specification.
  // ---------------------------------------------------------------------------------------------

  /** The instance, the host status and the error after looking at an existing workflow. */
  function AfterWorkflow(texts: Texts, i: Instance, hostStatus: Status, wf: Workflow): (Instance, Status, Err) {
    var detail := GenerateStatusDetail(texts, wf);
    match wf.state
    case Success =>
      var standalone := IsStandalone(i.os);
      (i.(current := InstRunning, provisioning := PROVISIONED),
       if standalone == Some(false) then REBOOTING else hostStatus,
       if standalone.None? then Other else NoErr)
    case Failed | Timeout =>
      (i.(current := InstUnspecified, provisioning := WithDetail(PROVISIONING_FAILED, detail)), hostStatus, Aborted)
    case Empty | Running | Pending =>
      (i.(current := InstUnspecified, provisioning := WithDetail(PROVISIONING, detail)),
       hostStatus, OperationInProgress)
    case Unrecognised =>
      (i.(current := InstUnspecified, provisioning := PROVISIONING), hostStatus, Other)
  }

  /** First failing call, if any. */
  function FirstErr(a: Err, b: Err): Err {
    if a != NoErr then a else b
  }

  /** The workflow template for the OS type, if there is one. */
  function TemplateName(os: Os): Option<string> {
    if os.NoOs? then None else
    match os.osType
    case Mutable => Some("ubuntu")
    case Immutable => Some("microvisor")
    case OsUnspecified => None
  }

  function CreationErr(os: Os, c: Calls): Err {
    FirstErr(c.credentials,
             if TemplateName(os).None? then Other
             else FirstErr(c.inputs, if c.createWorkflow == AlreadyExists then NoErr else c.createWorkflow))
  }

  /** Stores after starting the provisioning workflow of the host. */
  function StartWorkflow(w: World, os: Os, c: Calls): World {
    if c.credentials != NoErr then w
    else if CreationErr(os, c) != NoErr then w.(credentials := true)
    else
      var workflow := if w.workflow.Some? then w.workflow else Some(NewWorkflow(TemplateName(os).value));
      w.(credentials := true, workflow := workflow)
  }

  /** What changed from host h to host n is written, and the instance in any case. */
  function WriteBack(w: World, h: Host, n: Host, i: Instance, c: Calls): World {
    var w1 := if n.status != h.status && c.writeHost == NoErr then w.(host := w.host.(status := n.status)) else w;
    var w2 := if n.onboarding != h.onboarding && c.writeOnboarding == NoErr
              then w1.(host := w1.host.(onboarding := n.onboarding)) else w1;
    if c.writeInstance == NoErr then WriteProvisioning(w2, i.id, i.current, i.provisioning) else w2
  }

  function Cleanup(w: World, c: Calls): World {
    if c.deleteWorkflow == NoErr || c.deleteWorkflow == NotFound then w.(workflow := None) else w
  }

  function Provision(texts: Texts, h: Host, i: Instance, w: World, c: Calls): (World, Directive) {
    if !i.os.Os? || !i.os.infraProvided then (Cleanup(w, c), AckIt)
    else if !Convertible(i.os) then (w, Retry)
    else
      var lookup := FirstErr(c.k8sClient, if c.getWorkflow == NoErr then NoErr else Other);
      if lookup != NoErr then
        (WriteBack(w, h, h, i, c), HandleProvisioningError(lookup).value)
      else if w.workflow.None? then
        var err := if CreationErr(i.os, c) != NoErr then CreationErr(i.os, c) else OperationInProgress;
        (WriteBack(StartWorkflow(w, i.os, c), h, h, i, c), HandleProvisioningError(err).value)
      else
        var (i1, hostStatus, err) := AfterWorkflow(texts, i, h.status, w.workflow.value);
        var w1 := WriteBack(w, h, h.(status := hostStatus), i1, c);
        if err != NoErr then (w1, HandleProvisioningError(err).value) else (Cleanup(w1, c), AckIt)
  }

  function Deauthorise(h: Host, i: Instance, w: World, c: Calls): World {
    if i.running.text == "Unknown" && i.running.detail.NoDetail? then w
    else
      var i1 := if AllStatusesIdle(i) then i else IdleStatuses(i);
      var found := Convertible(i.os) && c.k8sClient == NoErr && c.getWorkflow == NoErr && w.workflow.Some?;
      var cleaned := c.deleteWorkflow == NoErr || c.deleteWorkflow == NotFound;
      if found && !cleaned then w
      else
        var w1 := if found then w.(workflow := None) else w;
        if c.writeInstance == NoErr then WriteStatuses(w1, i1) else w1
  }

  function Delete(i: Instance, w: World, c: Calls): (World, Directive) {
    if c.deleteWorkflow != NoErr && c.deleteWorkflow != NotFound then
      (w, HandleProvisioningError(c.deleteWorkflow).value)
    else
      var w1 := w.(workflow := None);
      if c.writeState != NoErr then (w1, HandleInventoryError(c.writeState).value)
      else (WriteState(w1, i.id, InstDeleted), AckIt)
  }

  /** One reconciliation of instance `i` on host `h`, both as read at its start. */
  function Reconciled(texts: Texts, h: Host, i: Instance, w: World, c: Calls): (World, Directive) {
    if h.hasProvider then (w, AckIt)
    else if i.provisioning.indicator.Error? && !i.desired.InstDeleted? then (w, AckIt)
    else if Deauthorised(h) && i.desired.InstRunning? then (Deauthorise(h, i, w, c), AckIt)
    else if WantsProvisioning(h, i) then Provision(texts, h, i, w, c)
    else if i.desired == i.current || i.desired.InstRunning? then (w, AckIt)
    else match i.desired
      case InstDeleted => Delete(i, w, c)
      case InstUntrusted =>
        if c.writeState != NoErr then (w, HandleInventoryError(c.writeState).value)
        else (WriteState(w, i.id, InstUntrusted), AckIt)
      case _ => (w, AckIt)
  }

  // ---------------------------------------------------------------------------------------------
  // The reconciler, step by step.
  // ---------------------------------------------------------------------------------------------

  class Reconciler {
    const texts: Texts
    const c: Calls
    var world: World
    // the copy of the instance and its host that this reconciliation works on
    var inst: Instance
    var host: Host

    constructor (texts: Texts, c: Calls, world: World, host: Host, inst: Instance)
      ensures this.texts == texts && this.c == c && this.world == world && this.host == host && this.inst == inst
    {
      this.texts := texts;
      this.c := c;
      this.world := world;
      this.host := host;
      this.inst := inst;
    }

    /** A reconciliation; fetch is how reading the instance and its host ended. */
    method Reconcile(fetch: Err) returns (d: Directive)
      modifies this
      ensures fetch != NoErr ==> world == old(world) && Some(d) == HandleInventoryError(fetch)
      ensures fetch == NoErr ==> (world, d) == Reconciled(texts, old(host), old(inst), old(world), c)
    {
      var directive := HandleInventoryError(fetch);
      if directive.Some? {
        return directive.value;
      }
      if host.hasProvider {
        return AckIt;
      }
      if inst.provisioning.indicator == PROVISIONING_FAILED.indicator && inst.desired != InstDeleted {
        return AckIt;
      }
      var handled := HandleHostDeauthorized();
      if handled {
        return AckIt;
      }
      if inst.desired == inst.current {
        if inst.current.InstRunning?
          && inst.provisioning.indicator != PROVISIONED.indicator
          && !(inst.provisioning.text == PROVISIONED.text && inst.provisioning.detail.NoDetail?) {
          d := ReconcileInstance();
          return;
        }
        return AckIt;
      }
      if inst.desired == InstRunning && host.current != HostOnboarded {
        return AckIt;
      }
      d := ReconcileInstance();
    }

    method HandleHostDeauthorized() returns (handled: bool)
      modifies this
      ensures handled <==> Deauthorised(old(host)) && old(inst).desired.InstRunning?
      ensures handled ==> world == Deauthorise(old(host), old(inst), old(world), c)
      ensures !handled ==> world == old(world) && inst == old(inst) && host == old(host)
    {
      if !((host.current == HostUntrusted || host.desired == HostUntrusted) && inst.desired == InstRunning) {
        return false;
      }
      if !(inst.running.text == "Unknown" && inst.running.detail.NoDetail?) {
        if !AllStatusesIdle(inst) {
          PopulateInstanceIdleStatus();
        }
        if Convertible(inst.os) && c.k8sClient == NoErr && c.getWorkflow == NoErr && world.workflow.Some? {
          var err := DeleteWorkflowIfExists();
          if err != NoErr {
            return true;
          }
        }
        if c.writeInstance == NoErr {
          world := WriteStatuses(world, inst);
        }
      }
      return true;
    }

    method PopulateInstanceIdleStatus()
      modifies this`inst
      ensures inst == IdleStatuses(old(inst))
    {
      inst := inst.(running := UNKNOWN);
      inst := inst.(provisioning := UNKNOWN);
      inst := inst.(update := UNKNOWN);
      inst := inst.(attestation := UNKNOWN);
    }

    method DeleteWorkflowIfExists() returns (err: Err)
      modifies this`world
      ensures world == Cleanup(old(world), c)
      ensures err == (if c.deleteWorkflow == NotFound then NoErr else c.deleteWorkflow)
    {
      err := c.deleteWorkflow;
      if err == NoErr || err == NotFound {
        world := world.(workflow := None);
        err := NoErr;
      }
    }

    method ReconcileInstance() returns (d: Directive)
      modifies this
      ensures old(inst).desired.InstRunning? ==> (world, d) == Provision(texts, old(host), old(inst), old(world), c)
      ensures old(inst).desired.InstDeleted? ==> (world, d) == Delete(old(inst), old(world), c)
      ensures old(inst).desired.InstUntrusted? ==>
        (world, d) == (if c.writeState != NoErr then (old(world), HandleInventoryError(c.writeState).value)
                       else (WriteState(old(world), old(inst).id, InstUntrusted), AckIt))
      ensures old(inst).desired.InstUnspecified? ==> world == old(world) && d == AckIt
    {
      if inst.desired == InstRunning {
        var err := TryProvisionInstance();
        var directive := HandleProvisioningError(err);
        if directive.Some? {
          return directive.value;
        }
        err := DeleteWorkflowIfExists();
        return AckIt;
      }
      if inst.desired == InstDeleted {
        var err := DeleteWorkflowIfExists();
        if err != NoErr {
          var directive := HandleProvisioningError(err);
          if directive.Some? {
            return directive.value;
          }
        }
        var failed := HandleInventoryError(c.writeState);
        if failed.Some? {
          return failed.value;
        }
        world := WriteState(world, inst.id, InstDeleted);
        return AckIt;
      }
      if inst.desired == InstUntrusted {
        var failed := HandleInventoryError(c.writeState);
        if failed.Some? {
          return failed.value;
        }
        world := WriteState(world, inst.id, InstUntrusted);
        return AckIt;
      }
      return AckIt;
    }

    /** The error of the provisioning attempt; the copy of the instance is written back on every path
        that gets past the conversion, whether or not the attempt failed. */
    method TryProvisionInstance() returns (err: Err)
      modifies this
      ensures Provision(texts, old(host), old(inst), old(world), c)
           == if err != NoErr then (world, HandleProvisioningError(err).value) else (Cleanup(world, c), AckIt)
    {
      if inst.os.NoOs? {
        return NoErr;
      }
      if !inst.os.infraProvided {
        return NoErr;
      }
      if !Convertible(inst.os) {
        return Other;
      }
      var oldHost := host;
      err := CheckStatusOrRunProdWorkflow();
      if err == NoErr {
        inst := inst.(current := InstRunning, provisioning := PROVISIONED);
      }
      UpdateHostInstanceStatusAndCurrentState(oldHost);
    }

    method UpdateHostInstanceStatusAndCurrentState(oldHost: Host)
      modifies this`world
      ensures world == WriteBack(old(world), oldHost, host, inst, c)
    {
      if oldHost.status != host.status {
        if c.writeHost == NoErr {
          world := world.(host := world.host.(status := host.status));
        }
      }
      if oldHost.onboarding != host.onboarding {
        if c.writeOnboarding == NoErr {
          world := world.(host := world.host.(onboarding := host.onboarding));
        }
      }
      // the cloned OS reference never equals the original one, so this write is always issued
      if c.writeInstance == NoErr {
        world := WriteProvisioning(world, inst.id, inst.current, inst.provisioning);
      }
    }

    method CheckStatusOrRunProdWorkflow() returns (err: Err)
      modifies this
      ensures var lookup := FirstErr(c.k8sClient, if c.getWorkflow == NoErr then NoErr else Other);
        if lookup != NoErr then
          err == lookup && world == old(world) && inst == old(inst) && host == old(host)
        else if old(world).workflow.None? then
          && err == FirstErr(CreationErr(inst.os, c), OperationInProgress)
          && world == StartWorkflow(old(world), inst.os, c) && inst == old(inst) && host == old(host)
        else
          && (inst, host.status, err) == AfterWorkflow(texts, old(inst), old(host).status, old(world).workflow.value)
          && world == old(world) && host == old(host).(status := host.status)
    {
      if c.k8sClient != NoErr {
        return c.k8sClient;
      }
      if c.getWorkflow == NoErr && world.workflow.None? {
        err := RunProdWorkflow();
        if err != NoErr {
          return;
        }
        return OperationInProgress;
      }
      if c.getWorkflow != NoErr {
        return Other;
      }
      inst := inst.(current := InstUnspecified, provisioning := PROVISIONING);
      err := HandleWorkflowStatus(world.workflow.value);
    }

    method RunProdWorkflow() returns (err: Err)
      modifies this`world
      ensures err == CreationErr(inst.os, c) && world == StartWorkflow(old(world), inst.os, c)
    {
      if c.credentials != NoErr {
        return c.credentials;
      }
      world := world.(credentials := true);
      var templateName := TemplateName(inst.os);
      if templateName.None? {
        return Other;
      }
      if c.inputs != NoErr {
        return c.inputs;
      }
      if c.createWorkflow != NoErr && c.createWorkflow != AlreadyExists {
        return c.createWorkflow;
      }
      if world.workflow.None? {
        world := world.(workflow := Some(NewWorkflow(templateName.value)));
      }
      return NoErr;
    }

    method HandleWorkflowStatus(wf: Workflow) returns (err: Err)
      requires inst.current == InstUnspecified && inst.provisioning == PROVISIONING
      modifies this`inst, this`host
      ensures forall i: Instance ::
        i.(current := InstUnspecified, provisioning := PROVISIONING) == old(inst) ==>
          (inst, host.status, err) == AfterWorkflow(texts, i, old(host).status, wf)
      ensures host == old(host).(status := host.status)
    {
      var detail := GenerateStatusDetail(texts, wf);
      match wf.state
      case Success =>
        inst := inst.(current := InstRunning, provisioning := WithDetail(PROVISIONED, detail));
        var standalone := IsStandalone(inst.os);
        if standalone.None? {
          return Other;
        }
        if !standalone.value {
          host := host.(status := REBOOTING);
        }
        return NoErr;
      case Failed | Timeout =>
        inst := inst.(provisioning := WithDetail(PROVISIONING_FAILED, detail));
        return Aborted;
      case Empty | Running | Pending =>
        inst := inst.(current := InstUnspecified, provisioning := WithDetail(PROVISIONING, detail));
        return OperationInProgress;
      case Unrecognised =>
        return Other;
    }
  }
}
