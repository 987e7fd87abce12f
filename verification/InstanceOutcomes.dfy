/**
 What one reconciliation of an instance comes to, in terms of what it read, what the stores hold and how the
 calls end. Everything holds for any snapshot, however old, and none of it is stated through the steps of the
 reconciliation itself.
 */
module InstanceOutcomes {
  import opened Wrappers
  import opened StatusDetail
  import opened Inventory
  import opened InstanceReconciler

  /** The instance is to be provisioned: RUNNING is desired, nothing forbids it, and the host is ONBOARDED, or the
      instance is reported RUNNING while provisioning is not done. */
  predicate ToProvision(h: Host, i: Instance) {
    && !h.hasProvider
    && h.current != HostUntrusted && h.desired != HostUntrusted
    && i.desired == InstRunning && i.provisioning.indicator != Error
    && (i.current != InstRunning ==> h.current == HostOnboarded)
    && (i.current == InstRunning ==> i.provisioning.indicator != Settled)
    && (i.current == InstRunning ==> i.provisioning.text != "Provisioned" || i.provisioning.detail != NoDetail)
  }

  /** An OS of a known type and with readable metadata if they matter. */
  predicate Known(os: Os) {
    os != NoOs && os.osType != OsUnspecified && (os.osType == Immutable ==> os.metadata != Malformed)
  }

  /** One that is also installed from here. */
  predicate Supported(os: Os) {
    Known(os) && os.infraProvided
  }

  predicate IdleStatus(s: Status) {
    s.indicator == Settled || s.indicator == NoIndication
  }

  /** The host may not run its instance any more, and the instance is not out of reach of the reconciler. */
  predicate ToDeauthorise(h: Host, i: Instance) {
    && !h.hasProvider && (h.current == HostUntrusted || h.desired == HostUntrusted)
    && i.desired == InstRunning && i.provisioning.indicator != Error
    && (i.running.text != "Unknown" || i.running.detail != NoDetail)
  }

  predicate LookedUp(c: Calls) {
    c.k8sClient == NoErr && c.getWorkflow == NoErr
  }

  predicate Removed(c: Calls) {
    c.deleteWorkflow == NoErr || c.deleteWorkflow == NotFound
  }

  /** The instance with which the reconciliation ends is written: it is still there, and the write succeeds. */
  predicate Writable(w: World, i: Instance, c: Calls) {
    w.instance.Some? && w.instance.value.id == i.id && c.writeInstance == NoErr
  }

  /** The first of the calls that create a workflow to fail. */
  function CreationFailure(c: Calls): Err {
    if c.credentials != NoErr then c.credentials
    else if c.inputs != NoErr then c.inputs
    else if c.createWorkflow == AlreadyExists then NoErr
    else c.createWorkflow
  }

  /** Transient errors are retried, an aborted provisioning fails, and what is no gRPC error is given up. */
  predicate Answers(d: Directive, e: Err) {
    && (d == Fail <==> e == Aborted)
    && (d == AckIt <==> e == NotGrpc)
  }

  // ---------------------------------------------------------------------------------------------
  // The workflow object and the credentials.
  // ---------------------------------------------------------------------------------------------

  /** A workflow is created exactly for an instance to be provisioned with a supported OS, when none is found and
      the calls on the way succeed; it starts empty and with the template for the OS type. */
  lemma WorkflowCreatedExactly(t: Texts, h: Host, i: Instance, w: World, c: Calls)
    requires w.workflow == None
    ensures var created := Reconciled(t, h, i, w, c).0.workflow;
      && (created != None <==> ToProvision(h, i) && Supported(i.os) && LookedUp(c) && CreationFailure(c) == NoErr)
      && (created != None ==> created.value.state == Empty && created.value.tasks == []
                              && created.value.template == if i.os.osType == Mutable then "ubuntu" else "microvisor")
  {
  }

  /** Credentials are issued exactly on the way to that, and never taken back. */
  lemma CredentialsIssuedExactly(t: Texts, h: Host, i: Instance, w: World, c: Calls)
    ensures Reconciled(t, h, i, w, c).0.credentials <==>
      || w.credentials
      || (ToProvision(h, i) && Supported(i.os) && LookedUp(c) && w.workflow == None && c.credentials == NoErr)
  {
  }

  /** A workflow object disappears exactly when it can be removed and it has succeeded, or its instance is not
      provisioned from here, is to be deleted, or belongs to a deauthorised host; otherwise it is untouched. */
  lemma WorkflowGoneIff(t: Texts, h: Host, i: Instance, w: World, c: Calls)
    requires w.workflow != None
    ensures var left := Reconciled(t, h, i, w, c).0.workflow;
      && (left == None <==>
            && Removed(c)
            && (|| (ToProvision(h, i) && (i.os == NoOs || !i.os.infraProvided))
                || (ToProvision(h, i) && Supported(i.os) && LookedUp(c) && w.workflow.value.state == Success)
                || (!h.hasProvider && i.desired == InstDeleted && i.current != InstDeleted)
                || (ToDeauthorise(h, i) && LookedUp(c) && Known(i.os))))
      && (left == None || left == w.workflow)
  {
  }

  // ---------------------------------------------------------------------------------------------
  // The instance, the host and the directive.
  // ---------------------------------------------------------------------------------------------

  /** RUNNING with provisioning finished is written exactly on a workflow that has succeeded, if the write
      succeeds. Whatever was read as finished is taken to be finished in the stores. */
  lemma ProvisionedWrittenIff(t: Texts, h: Host, i: Instance, w: World, c: Calls)
    requires w.instance != None
    requires w.instance.value.current != InstRunning || w.instance.value.provisioning.indicator != Settled
    requires i.provisioning.indicator == Settled ==> w.instance.value.provisioning.indicator == Settled
    ensures var k := Reconciled(t, h, i, w, c).0.instance.value;
      k.current == InstRunning && k.provisioning.indicator == Settled <==>
        && ToProvision(h, i) && Supported(i.os) && LookedUp(c) && Writable(w, i, c)
        && w.workflow != None && w.workflow.value.state == Success
  {
  }

  /** Looking at a workflow: what is written to the instance and the host, and the directive. Only success lets
      the request end, and until then the instance is not RUNNING. */
  lemma EvaluationOutcome(t: Texts, h: Host, i: Instance, w: World, c: Calls)
    requires ToProvision(h, i) && Supported(i.os) && LookedUp(c) && w.workflow != None
    ensures var (r, d) := Reconciled(t, h, i, w, c);
      var wf := w.workflow.value; var detail := GenerateStatusDetail(t, wf);
      match wf.state
      case Success =>
        && Shows(w, r, i, c, InstRunning, Status("Provisioned", NoDetail, Settled)) && d == AckIt
        && HostShows(w, r, h, c,
             if i.os.osType == Immutable && i.os.metadata == Parsed(true) then h.status
             else Status("Rebooting", NoDetail, InProgress))
      case Failed =>
        && Shows(w, r, i, c, InstUnspecified, Status("Provisioning Failed", detail, Error)) && d == Fail
        && HostShows(w, r, h, c, h.status)
      case Timeout =>
        && Shows(w, r, i, c, InstUnspecified, Status("Provisioning Failed", detail, Error)) && d == Fail
        && HostShows(w, r, h, c, h.status)
      case Unrecognised =>
        && Shows(w, r, i, c, InstUnspecified, Status("Provisioning In Progress", NoDetail, InProgress)) && d == Retry
        && HostShows(w, r, h, c, h.status)
      case _ =>
        && Shows(w, r, i, c, InstUnspecified, Status("Provisioning In Progress", detail, InProgress)) && d == Retry
        && HostShows(w, r, h, c, h.status) && r.workflow == w.workflow
  {
  }

  /** The instance gets this state and provisioning status if that can be written, and nothing else of it
      changes. */
  predicate Shows(w: World, r: World, i: Instance, c: Calls, current: InstanceState, provisioning: Status) {
    r.instance ==
      if Writable(w, i, c) then Some(w.instance.value.(current := current, provisioning := provisioning))
      else w.instance
  }

  /** The host gets this status if it differs from the one that was read and can be written. */
  predicate HostShows(w: World, r: World, h: Host, c: Calls, status: Status) {
    r.host == if status != h.status && c.writeHost == NoErr then w.host.(status := status) else w.host
  }

  /** Writing back what was worked out from host h and instance i: of the host, its two statuses, each if it changed and
      can be written; of the instance, its state and provisioning status, whether they changed or not. */
  lemma WrittenBack(w: World, h: Host, n: Host, i: Instance, c: Calls)
    ensures var r := WriteBack(w, h, n, i, c);
      var status := n.status != h.status && c.writeHost == NoErr;
      var onboarding := n.onboarding != h.onboarding && c.writeOnboarding == NoErr;
      && r.host.status == (if status then n.status else w.host.status)
      && r.host.onboarding == (if onboarding then n.onboarding else w.host.onboarding)
      && r.host == w.host.(status := r.host.status, onboarding := r.host.onboarding)
      && Shows(w, r, i, c, i.current, i.provisioning)
      && r == w.(host := r.host, instance := r.instance)
  {
  }

  /** Without a workflow to look at, the instance is written back as it was read, and the directive tells how
      the lookup or the creation ended. */
  lemma NoEvaluationOutcome(t: Texts, h: Host, i: Instance, w: World, c: Calls)
    requires ToProvision(h, i) && Supported(i.os) && !(LookedUp(c) && w.workflow != None)
    ensures var (r, d) := Reconciled(t, h, i, w, c);
      && Shows(w, r, i, c, i.current, i.provisioning) && r.host == w.host
      && (c.k8sClient != NoErr ==> Answers(d, c.k8sClient))
      && (c.k8sClient == NoErr && c.getWorkflow != NoErr ==> d == Retry)
      && (LookedUp(c) ==> if CreationFailure(c) == NoErr then d == Retry else Answers(d, CreationFailure(c)))
  {
  }

  /** An OS that is not supported: the request ends if it is not installed from here, and is retried otherwise. */
  lemma UnsupportedOutcome(t: Texts, h: Host, i: Instance, w: World, c: Calls)
    requires ToProvision(h, i) && !Supported(i.os)
    ensures var (r, d) := Reconciled(t, h, i, w, c);
      && r == w.(workflow := r.workflow)
      && d == if i.os == NoOs || !i.os.infraProvided then AckIt else Retry
  {
  }

  /** The instance of a deauthorised host: all its statuses become Unknown unless all are idle; if its workflow
      is found but cannot be removed, nothing is written. */
  lemma DeauthorisedOutcome(t: Texts, h: Host, i: Instance, w: World, c: Calls)
    requires ToDeauthorise(h, i)
    ensures var (r, d) := Reconciled(t, h, i, w, c);
      var idle :=
        IdleStatus(i.running) && IdleStatus(i.provisioning) && IdleStatus(i.update) && IdleStatus(i.attestation);
      var unknown := Status("Unknown", NoDetail, NoIndication);
      var stuck := LookedUp(c) && w.workflow != None && Known(i.os) && !Removed(c);
      && d == AckIt && r.host == w.host
      && r.instance ==
           if !Writable(w, i, c) || stuck then w.instance
           else if idle then Some(w.instance.value.(running := i.running, provisioning := i.provisioning,
                                                    update := i.update, attestation := i.attestation))
           else Some(w.instance.value.(running := unknown, provisioning := unknown,
                                       update := unknown, attestation := unknown))
  {
  }

  /** Asked to be DELETED or UNTRUSTED, an instance becomes so exactly when that can be written, and, for DELETED,
      its workflow object is gone; nothing else of it changes, and errors answer the request. */
  lemma RequestedStateOutcome(t: Texts, h: Host, i: Instance, w: World, c: Calls)
    requires !h.hasProvider && i.desired != i.current && (i.desired == InstDeleted || i.desired == InstUntrusted)
    requires i.desired == InstUntrusted ==> i.provisioning.indicator != Error
    ensures var (r, d) := Reconciled(t, h, i, w, c); var removed := i.desired == InstDeleted ==> Removed(c);
      && r.host == w.host
      && r.instance ==
           (if removed && c.writeState == NoErr && w.instance != None && w.instance.value.id == i.id
            then Some(w.instance.value.(current := i.desired)) else w.instance)
      && (!removed ==> Answers(d, c.deleteWorkflow))
      && (removed ==> (d == Retry <==> c.writeState in {OperationInProgress, Aborted, Other}) && d != Fail)
  {
  }

  /** In all other cases nothing happens and the request ends. */
  lemma NothingToDo(t: Texts, h: Host, i: Instance, w: World, c: Calls)
    requires !ToProvision(h, i) && !ToDeauthorise(h, i)
    requires h.hasProvider || i.desired == i.current || i.desired in {InstRunning, InstUnspecified}
          || (i.provisioning.indicator == Error && i.desired != InstDeleted)
    ensures Reconciled(t, h, i, w, c) == (w, AckIt)
  {
  }
}
